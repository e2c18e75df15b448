/**
 Random numbers from a closed interval, drawn by rejection sampling from a stream of
 64-bit words (common/rng_sfmt.cpp).  The SFMT generator itself is a parameter: the
 model only sees the words it produces.
 */
module Rng {
  import opened Wrappers

  const UINT32_SIZE: int := 0x1_0000_0000
  const UINT64_MAX: int := 0xFFFF_FFFF_FFFF_FFFF

  type uint32 = x: int | 0 <= x < 0x1_0000_0000
  type uint64 = x: int | 0 <= x <= 0xFFFF_FFFF_FFFF_FFFF
  type int32 = x: int | -0x8000_0000 <= x < 0x8000_0000

  datatype RngError = InvalidBounds | StreamExhausted

  /** Conversion of a signed 32-bit integer to an unsigned one: two's complement. */
  function ToUnsigned(x: int32): uint32
  {
    if x < 0 then x + UINT32_SIZE else x
  }

  /** -v in 32-bit unsigned arithmetic. */
  function Negate(v: uint32): uint32
  {
    if v == 0 then 0 else UINT32_SIZE - v
  }

  /** max - min + 1, in 32-bit unsigned arithmetic. */
  function Diameter(min: uint32, max: uint32): uint32
  {
    (max - min + 1) % UINT32_SIZE
  }

  /** How many whole copies of the interval fit into the 64-bit universe. */
  function Buckets(min: uint32, max: uint32): uint64
    requires Diameter(min, max) != 0
  {
    UINT64_MAX / Diameter(min, max)
  }

  /** First rejected word: diameter * buckets, in 64-bit unsigned arithmetic. */
  function Limit(min: uint32, max: uint32): uint64
    requires Diameter(min, max) != 0
  {
    Diameter(min, max) * Buckets(min, max) % (UINT64_MAX + 1)
  }

  predicate Accepted(raw: uint64, min: uint32, max: uint32)
    requires Diameter(min, max) != 0
  {
    raw < Limit(min, max)
  }

  /** The number returned for an accepted word; the final cast keeps 32 bits. */
  function Sample(raw: uint64, min: uint32, max: uint32): uint32
    requires Diameter(min, max) != 0
  {
    (raw / Buckets(min, max) + min) % UINT32_SIZE
  }

  // ---------------------------------------------------------------- fairness

  lemma DivBounds(n: int, d: int)
    requires 0 <= n && 0 < d
    ensures 0 <= n / d
    ensures d * (n / d) <= n < d * (n / d) + d
  {
  }

  /** No 64-bit wrap-around happens, and there is at least one bucket. */
  lemma LimitIsExact(min: uint32, max: uint32)
    requires min <= max && Diameter(min, max) != 0
    ensures Diameter(min, max) == max - min + 1
    ensures 1 <= Buckets(min, max)
    ensures Limit(min, max) == Diameter(min, max) * Buckets(min, max) <= UINT64_MAX
  {
    var d := Diameter(min, max);
    assert d == max - min + 1;
    DivBounds(UINT64_MAX, d);
    assert d * 0 == 0;
  }

  /** A word is accepted with result v exactly when it lies in v's bucket. */
  lemma SampleIffInBucket(raw: uint64, min: uint32, max: uint32, v: int)
    requires min <= max && Diameter(min, max) != 0
    requires min <= v <= max
    ensures (Accepted(raw, min, max) && Sample(raw, min, max) == v)
            <==> (v - min) * Buckets(min, max) <= raw < (v - min + 1) * Buckets(min, max)
  {
    LimitIsExact(min, max);
    var b := Buckets(min, max);
    DivBounds(raw, b);
    var q := raw / b;
    AcceptedIffQuotient(raw, min, max);
    if Accepted(raw, min, max) && Sample(raw, min, max) == v {
      assert q == v - min;
      assert b * q == (v - min) * b;
      assert (v - min + 1) * b == b * q + b;
    }
    if (v - min) * b <= raw < (v - min + 1) * b {
      QuotientUnique(raw, b, v - min);
    }
  }

  lemma MulMonotone(x: int, y: int, b: int)
    requires x <= y && 0 <= b
    ensures x * b <= y * b
  {
  }

  lemma MulAbove(p: int, q: int, d: int)
    requires p < q && 0 <= d
    ensures d * p + d <= q * d
  {
    MulMonotone(p + 1, q, d);
    assert (p + 1) * d == d * p + d;
  }

  lemma SameMultiple(n: int, d: int, p: int, q: int)
    requires 0 < d && d * p <= n < d * p + d && q * d <= n < (q + 1) * d
    ensures p == q
  {
    assert (q + 1) * d == d * q + d && q * d == d * q;
    if p < q {
      MulAbove(p, q, d);
    } else if q < p {
      MulAbove(q, p, d);
    }
  }

  lemma QuotientUnique(n: int, d: int, q: int)
    requires 0 <= n && 0 < d
    requires q * d <= n < (q + 1) * d
    ensures n / d == q
  {
    DivBounds(n, d);
    SameMultiple(n, d, n / d, q);
  }

  lemma BelowIffQuotient(n: int, b: int, q: int, d: int)
    requires 0 < b && b * q <= n < b * q + b
    ensures n < d * b <==> q <= d - 1
  {
    if q <= d - 1 {
      MulAbove(q, d, b);
    } else {
      MulMonotone(d, q, b);
      assert q * b == b * q;
    }
  }

  lemma AcceptedIffQuotient(raw: uint64, min: uint32, max: uint32)
    requires min <= max && Diameter(min, max) != 0
    ensures 1 <= Buckets(min, max)
    ensures Accepted(raw, min, max) <==> raw / Buckets(min, max) <= max - min
  {
    hide Limit; hide Buckets; hide Diameter;
    LimitIsExact(min, max);
    var d, b := Diameter(min, max), Buckets(min, max);
    DivBounds(raw, b);
    BelowIffQuotient(raw, b, raw / b, d);
  }

  /** Accepted words never leave the interval, and the final cast loses nothing. */
  lemma {:induction false} SampleInRange(raw: uint64, min: uint32, max: uint32)
    requires min <= max && Diameter(min, max) != 0
    requires Accepted(raw, min, max)
    ensures min <= Sample(raw, min, max) <= max
  {
    AcceptedIffQuotient(raw, min, max);
    DivBounds(raw, Buckets(min, max));
  }

  ghost function Interval(lo: int, hi: int): (s: set<int>)
    ensures forall x :: x in s <==> lo <= x < hi
    decreases hi - lo
  {
    if hi <= lo then {} else Interval(lo, hi - 1) + {hi - 1}
  }

  lemma {:induction false} IntervalSize(lo: int, hi: int)
    requires lo <= hi
    ensures |Interval(lo, hi)| == hi - lo
    decreases hi - lo
  {
    if lo < hi {
      IntervalSize(lo, hi - 1);
    }
  }

  /** All accepted words that produce v. */
  ghost function Preimage(min: uint32, max: uint32, v: int): set<int>
    requires Diameter(min, max) != 0
  {
    set raw: int | 0 <= raw <= UINT64_MAX && Accepted(raw, min, max) && Sample(raw, min, max) == v
  }

  /** All words for which the generator is asked again. */
  ghost function Rejected(min: uint32, max: uint32): set<int>
    requires Diameter(min, max) != 0
  {
    set raw: int | 0 <= raw <= UINT64_MAX && !Accepted(raw, min, max)
  }

  lemma BucketBounds(q: int, b: int, d: int)
    requires 0 <= q < d && 0 <= b
    ensures 0 <= q * b && (q + 1) * b == q * b + b && (q + 1) * b <= d * b
  {
    MulMonotone(0, q, b);
    MulMonotone(q + 1, d, b);
  }

  /** Fairness: every number of the interval has the same number of words, namely `Buckets`. */
  lemma EveryResultEquallyLikely(min: uint32, max: uint32, v: int)
    requires min <= max && Diameter(min, max) != 0
    requires min <= v <= max
    ensures |Preimage(min, max, v)| == Buckets(min, max) >= 1
  {
    LimitIsExact(min, max);
    var b, d := Buckets(min, max), Diameter(min, max);
    var lo, hi := (v - min) * b, (v - min + 1) * b;
    BucketBounds(v - min, b, d);
    forall raw: int | 0 <= raw <= UINT64_MAX
      ensures raw in Preimage(min, max, v) <==> lo <= raw < hi
    {
      SampleIffInBucket(raw, min, max, v);
    }
    assert Preimage(min, max, v) == Interval(lo, hi);
    IntervalSize(lo, hi);
  }

  /** At most `diameter` of the 2^64 words are thrown away (exactly the remainder plus one). */
  lemma RejectedWords(min: uint32, max: uint32)
    requires min <= max && Diameter(min, max) != 0
    ensures |Rejected(min, max)| == UINT64_MAX % Diameter(min, max) + 1 <= Diameter(min, max)
  {
    LimitIsExact(min, max);
    RejectedIsInterval(min, max, Limit(min, max));
    IntervalSize(Limit(min, max), UINT64_MAX + 1);
    DivMod(UINT64_MAX, Diameter(min, max));
  }

  lemma DivMod(n: int, d: int)
    requires 0 <= n && 0 < d
    ensures n == d * (n / d) + n % d && 0 <= n % d < d
  {
  }

  lemma RejectedIsInterval(min: uint32, max: uint32, limit: uint64)
    requires Diameter(min, max) != 0 && limit == Limit(min, max)
    ensures Rejected(min, max) == Interval(limit, UINT64_MAX + 1)
  {
    forall raw: int | 0 <= raw <= UINT64_MAX
      ensures raw in Rejected(min, max) <==> limit <= raw
    {
      assert Accepted(raw, min, max) <==> raw < limit;
    }
  }

  // --------------------------------------------------------------- the generator

  /** Position of the first accepted word at or after `pos`, or the end of the stream. */
  function FirstAccepted(words: seq<uint64>, pos: nat, min: uint32, max: uint32): (k: nat)
    requires pos <= |words| && Diameter(min, max) != 0
    ensures pos <= k <= |words|
    ensures k < |words| ==> Accepted(words[k], min, max)
    ensures forall i :: pos <= i < k ==> !Accepted(words[i], min, max)
    decreases |words| - pos
  {
    if pos == |words| || Accepted(words[pos], min, max) then pos
    else FirstAccepted(words, pos + 1, min, max)
  }

  /** Negating the upper bound, which the source does for min = 0 only, stays within 32 bits. */
  predicate Negatable(min: int32, max: int32)
  {
    min == 0 ==> max != -0x8000_0000
  }

  /** Which arguments of `Rand` reach the sampling loop, and with which bounds. */
  datatype Request = Fail | Constant(value: uint32) | Draw(min: uint32, max: uint32, negate: bool)

  function Dispatch(min: int32, max: int32): Request
    requires Negatable(min, max)
  {
    if min < 0 then Fail
    else if min == max then Constant(max)
    else if min == 0 && max < 0 then Draw(0, ToUnsigned(-max), true)
    else if min > ToUnsigned(max) then Fail
    else Draw(min, ToUnsigned(max), false)
  }

  /** The division by the diameter is safe for every request that reaches the loop. */
  lemma DispatchNeverWraps(min: int32, max: int32)
    requires Negatable(min, max)
    ensures Dispatch(min, max).Draw? ==>
              var r := Dispatch(min, max); r.min <= r.max && Diameter(r.min, r.max) != 0
  {
  }

  /**
   The documented promise "min > max is caught" fails for a positive min and a negative max: the
   negative bound turns into a huge unsigned one.  The bounds of a draw are the caller's own
   bounds exactly when the caller passed 0 <= min < max.
   */
  lemma DrawUsesCallersBounds(min: int32, max: int32)
    requires Negatable(min, max)
    ensures Dispatch(min, max) == Draw(ToUnsigned(min), ToUnsigned(max), false) && ToUnsigned(max) == max
            <==> 0 <= min < max
    ensures 0 < min && max < 0 ==> Dispatch(min, max) == Draw(min, max + UINT32_SIZE, false)
    ensures Dispatch(min, max) == Fail <==> min < 0 || 0 <= max < min
  {
  }

  /** The pseudo random generator: a finite stretch of the words it is going to produce. */
  class Generator {
    const words: seq<uint64>
    var pos: nat

    constructor (words: seq<uint64>)
      ensures Valid() && this.words == words && pos == 0
    {
      this.words := words;
      this.pos := 0;
    }

    ghost predicate Valid()
      reads this
    {
      pos <= |words|
    }

    method Cdf(min: uint32, max: uint32) returns (r: Result<uint32, RngError>)
      requires Valid()
      requires min <= max ==> Diameter(min, max) != 0
      modifies this
      ensures Valid()
      ensures min > max ==> r == Err(InvalidBounds) && pos == old(pos)
      ensures min <= max ==>
                var k := FirstAccepted(words, old(pos), min, max);
                if k == |words| then r == Err(StreamExhausted) && pos == k
                else r == Ok(Sample(words[k], min, max)) && min <= r.value <= max && pos == k + 1
    {
      if min > max {
        return Err(InvalidBounds);
      }
      var diameter := Diameter(min, max);
      var buckets: uint64 := UINT64_MAX / diameter;
      var limit: uint64 := diameter * buckets % (UINT64_MAX + 1);
      while true
        invariant old(pos) <= pos <= |words|
        invariant FirstAccepted(words, old(pos), min, max) == FirstAccepted(words, pos, min, max)
        decreases |words| - pos
      {
        if pos == |words| {
          return Err(StreamExhausted);
        }
        var raw := words[pos];
        pos := pos + 1;
        if raw < limit {
          SampleInRange(raw, min, max);
          return Ok((raw / buckets + min) % UINT32_SIZE);
        }
      }
    }

    method Rand(min: int32, max: int32) returns (r: Result<uint32, RngError>)
      requires Valid() && Negatable(min, max)
      modifies this
      ensures Valid()
      ensures match Dispatch(min, max)
              case Fail => r == Err(InvalidBounds) && pos == old(pos)
              case Constant(v) => r == Ok(v) && pos == old(pos)
              case Draw(lo, hi, negate) =>
                lo <= hi && Diameter(lo, hi) != 0 &&
                var k := FirstAccepted(words, old(pos), lo, hi);
                if k == |words| then r == Err(StreamExhausted) && pos == k
                else pos == k + 1 &&
                     r == Ok(if negate then Negate(Sample(words[k], lo, hi)) else Sample(words[k], lo, hi))
      ensures 0 <= min <= max && r.Ok? ==> min <= r.value <= max
    {
      DispatchNeverWraps(min, max);
      if min < 0 {
        return Err(InvalidBounds);
      }
      if min == max {
        return Ok(max);
      }
      if min == 0 && max < 0 {
        var v := Cdf(0, ToUnsigned(-max));
        return if v.Ok? then Ok(Negate(v.value)) else v;
      }
      r := Cdf(min, ToUnsigned(max));
    }
  }
}
