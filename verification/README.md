# The card game server, modelled and proved

This project models the authoritative game server in the repository's `common/` directory and proves
what it promises about cards, turns, random numbers, decks, flooding and events. Every command is
handled under one lock in the original, so a command is one step here.

`dafny verify dfyconfig.toml` checks the whole project.

## What is modelled

- **Table index of a zone** (`PileRow`, `PileRowProofs`, `Compaction`, `RowMoves`, `TableZone`,
  `TableSteps`, `TableRuns`, `Stacking`, `CardZone`). A row of a table groups its columns in piles of three.
  `PileRow` is what the three incremental indexes of one row hold and how each operation changes them;
  `Compaction` and `RowMoves` say when a row survives compaction and moves. `TableZone` is a whole
  table as a value (cards, coordinates, indexes of all rows), `TableSteps` what the commands do to it,
  each with the exact condition under which the table is good again, and `TableRuns` the runs. `Stacking`
  says which piles are listed, and that over runs cards are stacked on their likes. Class
  `CardZone` is the zone object with the list and the three maps, its loops proved to do just that.
- **Cards of all players** (`GameState`, `Movement`, `Commands`, `UndoDraw`, `Attachments`, `Tokens`,
  `Lifecycle`, `Setup`, `GameRuns`, `Conservation`, `UndoList`). Zones, attachments, arrows and undo
  lists as one state; every command as a function on it; invariants over every run. What a command
  does to the lists of cards, to links, to arrows, to the cards it does not move and to a freshly set up
  seat is stated exactly in `CardLists`, `LinkEffects`, `Bystanders` and `DeckSetup`; whom an arrow joins,
  how a moved card lies, who may do what and which refusal is given, told by request and game before and
  after, in `MovedCards` and `CommandRules`. Class `PlayerCards.CardGame` performs the commands by updating
  fields in place, loop by loop, and is proved to compute those functions.
- **Game and tables together** (`TableLinks`, `GameTables`, `GameAttach`). The columns that enter the
  commands as parameters are there the ones the tables' indexes answer with: what a command does to each
  table is proved to be a run of that table's own steps, and over runs of such commands the game's
  invariants and the agreement of all tables' indexes hold at once.
- **Seats and turns** (`TurnOrder`, `TurnGame`, `Admission`, `TurnRules`, `Game`, `WholeGame`). Joining, leaving,
  readiness, concession, host and turn order; who is let in and what that says about everybody seated;
  class `Game.ServerGame` with its `Player` objects is the mutable form. `WholeGame` puts seats and cards
  together: what a command about seats does to the cards, and what holds of both over every game.
- **Random numbers and shuffling** (`Rng`, `Shuffling`). Rejection sampling in 64-bit arithmetic and
  the Fisher-Yates shuffle (Knuth, The Art of Computer Programming, volume 2, section 3.4.2).
- **Decks** (`Decimal`, `DeckXml`, `DeckHash`, `DeckEdit`, `DeckSort`, `DeckRules`, `DeckList`). The XML form as a
  stream of tokens, the tree with deletion and pruning, the canonical hash. Class
  `DeckLists.DeckList` reads, writes, edits and hashes in place.
- **Flood limiter** (`Flood`) and **event fan-out** (`Fanout`), each with the mutable objects.

Parameters stand for what comes from outside: the words of the random number generator, the digest
and the lower-casing functions, the database's answers about a visitor, the order in which a hash map
or a set is gone through, and (in `Movement`) the columns the table index answers with.

## What the code turned out to do

- Putting a card back into the hole it leaves in a full pile of the same row leaves the full pile in
  `freePilesMap`; the next card of that name is then sent to an occupied slot. `MoveWithinSettlesIff`
  says exactly when a move within a row is safe, `RefillMisdirectsNextCard` gives the concrete case.
- Compaction moves cards through `moveCard`, which passes over a card with attachments when the bottom
  slot of the pile asked for is taken. A pile with such a card above a gap stays open for good
  (`FixPileCompactsIff`, `FixPilesCompactsIff`); the next card of the name fills the gap, the pile stays
  listed, and the one after that gets an occupied slot (`StuckParentMisdirects`).
- Of the steps modelled, three bring this about: a card with attachments is put on other cards, say
  because several cards are moved at once or because it goes where its name is (`ArrivedGoodIff`,
  `ShiftedGoodIff`), the middle card of a pile is attached to the card above it (`AttachedGoodIff`),
  another table's card is attached to a face-up card that lies below others (`AdoptedGoodIff`).
- `rand` means to refuse negative bounds, but with `min > 0` and `max < 0` the bound is converted to
  an unsigned number instead (`DrawUsesCallersBounds`).
- A card drawn from the crypt goes onto the undo list although it never is in the hand
  (`CryptDrawTracksIff`), and lies at x = -1, outside `coordinateMap`, without being attached.
- Undoing the draw of a token destroys the token (`UndoAfterDrawIff`, `DrawThenUndoIff`).
- `unattachCard` and `cmdAttachCard` pass the card's face as the argument of `moveCard` that decides
  about compaction; the model does the same.
- When the last participant of a running game leaves as its host, the game closes with its started
  flag set and nobody left for `nextTurn` to stop at (`ClosingStrandsTheTurn`).
- When the active player leaves, the turn goes to the lowest (reversed: highest) eligible id
  (`LeavingRestartsTheRound`). That is the next in order exactly if the leaver was the first or the last
  of those who could have the turn (`LeavingPassesOnIff`); with three players the middle one's departure
  gives the turn back to the first (`MiddlePlayerLeaves`).
- `cleanList` keeps the sideboard plans, so a deck loaded over another one inherits its plans
  (`DocumentRoundTrip`); top-level zones of one name are merged by reading (`RoundTripIff`).
- Deleting a card just added does not restore a zone that stood empty before (`DeleteUndoesAddIff`).
- A storage whose private events name different players is split for the one named last
  (`LaterNameWins`). A single command writes such a log when it moves other players' cards as well: a card
  under which another player's card hangs is moved to a zone of another name, or a card is attached to
  another player's card that has to be set aside while its own table is compacted. Then the one player gets the private form of the other's move
  and the other gets neither (`MoveFreesAnothersCard`), however the log is split (`TwoNamesMislead`).
  Commands that move one player's cards only are told as meant (`OneNameIsRight`), unless a judge forced
  them and they have private events (`JudgeMisleadsIff`). A log that tells the others something and has no
  private event would be kept from player 0 (`NobodyNamed`); the commands write no such log.
- A command container that runs into the flood limit keeps the effects of the commands before, but
  sends none of their events (`ProtocolHandler.ProcessContainer`).

## Model

| member | source | states |
|---|---|---|
| Rng.LimitIsExact | common/rng_sfmt.cpp:100-121 | for bounds min <= max the product diameter times buckets never wraps in 64 bits, and there is at least one bucket |
| Rng.SampleIffInBucket | common/rng_sfmt.cpp:100-135 | a raw word is accepted with result v exactly when it lies in v's bucket |
| Rng.SampleInRange | common/rng_sfmt.cpp:122-135 | accepted words give numbers within the bounds and the final cast loses nothing |
| Rng.EveryResultEquallyLikely | common/rng_sfmt.cpp:61-135 | every number of the interval has the same number of accepted words, namely the number of buckets |
| Rng.RejectedWords | common/rng_sfmt.cpp:61-135 | exactly (2^64 - 1) mod diameter + 1 of the 2^64 words are rejected, never more than the diameter |
| Rng.DispatchNeverWraps | common/rng_sfmt.cpp:29-59 | whatever the signs of the bounds, a request that reaches the sampler has ordered bounds and a diameter that did not wrap to 0 |
| Rng.DrawUsesCallersBounds | common/rng_sfmt.cpp:29-59 | the sampler is asked for the caller's own interval exactly when 0 <= min < max; a positive min with a negative max is drawn up to max + 2^32 |
| Rng.Generator.Cdf | common/rng_sfmt.cpp:100-135 | the redrawing loop returns the sample of the first accepted word and moves past it |
| Rng.Generator.Rand | common/rng_sfmt.cpp:29-59 | the result is that of the dispatched request, and only the consumed words are gone |
| Shuffling.ShuffledSameCards | common/server_cardzone.cpp:45-73 | a shuffle of any slice keeps the multiset of cards of the zone |
| Shuffling.ShuffledRearranges | common/server_cardzone.cpp:45-73 | only the slice is permuted; positions outside keep their cards |
| Shuffling.ShuffledInjective | common/server_cardzone.cpp:45-73 | different choice sequences give different orders |
| Shuffling.ShuffledSurjective | common/server_cardzone.cpp:45-73 | every permutation of the slice is reached by some choice sequence, which the lemma constructs |
| Shuffling.ShuffleIsBijection | common/server_cardzone.cpp:45-73 | choice sequences and permutations of the slice correspond one to one, so uniform draws shuffle uniformly |
| CardZone.CardZone.Shuffle | common/server_cardzone.cpp:45-73 | negative positions count from the end, invalid slices change nothing, otherwise the zone is the shuffle by the drawn choices and stays valid |
| PileRowProofs.RemoveKeepsIndexed | common/server_cardzone.cpp:75-100 | taking a card out of its slot keeps all three indexes right, whatever gaps it leaves |
| PileRowProofs.InsertKeepsIndexedIff | common/server_cardzone.cpp:102-123 | an insertion keeps the indexes right exactly at safe slots |
| PileRowProofs.InsertKeepsSpace | common/server_cardzone.cpp:111-118 | after an insertion freeSpaceMap still names the least pile of three unused slots, unless the card opened that pile in its middle slot |
| PileRowProofs.FreeColumnIsNextSlot | common/server_cardzone.cpp:182-222 | on a settled row the column returned is unused and continues its pile without a gap; a requested pile with room and no attachments is granted |
| PileRowProofs.PutKeepsSettled | common/server_cardzone.cpp:182-222 | a card put where getFreeGridColumn says takes one unused slot and keeps the row settled |
| Compaction.FixPileCompactsIff | common/server_cardzone.cpp:240-275 | compaction turns a pile into a prefix of its slots with the same cards in the same order exactly if it has no gap, one card, or two that carry no attachments; then no other pile changes and all indexes are right; a pile without gap is left alone |
| Compaction.FixPilesCompactsIff | common/server_cardzone.cpp:248-275 | for the whole row, in any visiting order that covers the piles with gaps: settled with the same piles exactly if every pile is of that kind |
| Compaction.CompactionIsIdempotent | common/server_cardzone.cpp:248-275 | compacting a second time, in any order, changes nothing, whatever the first left open |
| Compaction.SpillFromParent | common/server_cardzone.cpp:240-275 | when the middle card of a full pile is attached to the bottom card and the top card carries no attachments, compaction moves the top card to the next free base and the row is settled again |
| RowMoves.MoveWithinSettlesIff | common/server_player.cpp:421-658 | a move within one row, with the compaction after it, settles the row again exactly if the request does not put the card back into the hole it leaves in a full pile; the condition speaks of the row and the request before the move |
| RowMoves.JoinsOthersIff | common/server_cardzone.cpp:182-222 | getFreeGridColumn gives a slot above a bottom card exactly if the pile asked for has room and a bottom card without attachments, or x is -1, the card may be stacked, and the newest pile listed under its name has such a bottom card lying face up |
| RowMoves.ArrivalKeepsAloneIff | common/server_player.cpp:456-465 | cards with attachments still have their piles for themselves after an arrival exactly if the arriving card carries none or the request does not put it on other cards |
| RowMoves.StuckParentMisdirects | common/server_cardzone.cpp:240-275 | concrete full pile whose top card carries attachments: the middle card leaves, compaction leaves the gap, and the second card after that is sent to an occupied slot |
| RowMoves.RefillMisdirectsNextCard | common/server_cardzone.cpp:102-123 | concrete full pile: its bottom card is put back in place, the pile stays listed, and the next card of that name is sent to an occupied slot |
| RowMoves.RefreshSettlesIff | common/server_cardzone.cpp:277-285 | updating a card's coordinates in place keeps the row settled exactly if it does not concern the middle card of a full pile, nor a bottom card that is listed then |
| TableZone.ArrivedGoodIff | common/server_cardzone.cpp:182-302 | a card that arrives on a good table is given an unused slot right on top of its pile and leaves every row settled; the table stays good exactly if the card carries no attachments or the request, as row and request stand before the command, does not put it on other cards |
| TableZone.BesideGood | common/server_player.cpp:321-355 | a card drawn from the crypt lies beside the grid and leaves the table good |
| TableZone.LooseCompacts | common/server_cardzone.cpp:248-275 | compaction over the places of the cards, in any order, makes a table good again whose only faults are gaps, with the same piles in the same order |
| TableZone.OwnTile | common/server_cardzone.cpp:287-302 | on a consistent table the slot at a card's coordinates holds that card under its name |
| TableZone.NoSharing | common/server_cardzone.cpp:287-302 | two cards of a zone never share a slot |
| TableSteps.DepartedGood | common/server_cardzone.cpp:125-145 | any number of cards leave and the table is compacted: it is good again |
| TableRuns.ParentDeparts | common/server_player.cpp:494-505 | a card with children leaves for a zone of another name: in between the table is good, its departure and its children's return are a harmless run, and the compaction at the end has nothing left to do |
| TableSteps.ShiftedGoodIff | common/server_player.cpp:421-658 | one card moved on its table, within a row, across rows or from beside the grid: good again exactly if it does not refill a full pile and, with attachments, is passed over or not put on other cards |
| TableSteps.ParentLandsWellMeans | common/server_cardzone.cpp:182-222 | not being put on others, read off the row before the move with the card's own listing discounted, is being given a bottom slot once the card is lifted |
| TableSteps.ShiftedAllGood | common/server_player.cpp:466-658 | several cards without attachments moved into another row by one command leave the table good |
| TableSteps.AttachedGoodIff | common/server_player.cpp:1305-1352 | attaching a card that hangs under none - any more - to another one of the table leaves it good exactly if it is not the middle card of a pile attached to the card above it |
| TableSteps.AttachedAwayGood | common/server_player.cpp:1305-1352 | attaching a card to one of another table leaves the table it came from good |
| TableSteps.AdoptedGoodIff | common/server_player.cpp:1329-1352 | the new parent's table stays good exactly if the parent did not lie below another card or lies face down |
| TableSteps.UnattachedGood | common/server_player.cpp:661-680 | unattaching a card without children leaves its table good |
| TableSteps.RefreshedGoodIff | common/server_cardzone.cpp:277-285 | when updating a card's coordinates in place leaves the table good |
| TableRuns.StepKeepsGoodIff | common/server_cardzone.cpp:75-302 | each of the eleven kinds of steps leaves a good table - indexes right, no gaps, parents alone in their piles - good exactly under the stated conditions |
| TableRuns.RunsStayGood | common/server_cardzone.cpp:75-302 | over every run of such steps the indexes agree with the coordinates: no two cards share a slot, every card with x >= 0 is found at its own, each listing names the bottom card of a pile with room, no listed pile is full, and every next column asked for is unused and on top of its pile |
| TableRuns.EmptyTableGood | common/server_cardzone.cpp:75-123 | a table nobody played a card to is good, so runs have a start |
| Stacking.RemovalListings | common/server_cardzone.cpp:75-100 | a removal takes away exactly the listing of that pile under the leaving card's name, and only if no other card of the name is left there, and adds exactly that of a full pile under its bottom card's name |
| Stacking.RemovalNewest | common/server_cardzone.cpp:75-100 | a name keeps its newest pile over a removal, unless its last card leaves that pile or a full pile with such a bottom card is opened |
| Stacking.InsertionListings | common/server_cardzone.cpp:102-123 | an insertion lists exactly a card that lies face up without attachments in a bottom slot, ahead of all others of its name, and takes away exactly the listing of a pile whose top slot it fills |
| Stacking.StepKeepsHeld | common/server_cardzone.cpp:75-302 | over each of the eleven steps a pile whose bottom card is left alone stays listed under its name, or is full |
| Stacking.ArrivalIsHeld | common/server_cardzone.cpp:102-123 | a face-up card without attachments that is given a bottom slot is listed, or its pile is full |
| Stacking.NextOfItsNameStacks | common/server_cardzone.cpp:182-222 | stacking, over every harmless run: while the bottom card is left alone its pile with room stays listed, and if it is the name's newest or only pile and the card lies face up without attachments, the next card of the name asked for at x = -1 lands right on it |
| Stacking.PassedOverIff | common/server_player.cpp:456-465 | a card with attachments is passed over exactly if a card lies in the bottom slot of the pile asked for, which for x < 0 is the next multiple of 3 to the right: x = -1 asks about column 0 |
| Stacking.OverflowGoesRight | common/server_cardzone.cpp:202-222 | asked for a full pile, or one with attachments at its bottom, a card goes to the first pile further right whose bottom is free |
| TableLinks.CompactIsAllFixed | common/server_cardzone.cpp:248-275 | whatever order the set of places yields, the compaction computed from the indexes is a list of moves and columns that the commands can be given, and with it lists, cards and indexes end up the same |
| TableLinks.ShiftAnswered | common/server_player.cpp:421-658 | moveCard for one card on its table, with the columns the indexes answer with, changes the game as the table's own shift does and nothing else |
| GameTables.ShiftPlayed | common/server_player.cpp:421-658 | as a command of the game: one harmless step of that table, all other tables left alone |
| GameTables.PlayPlayed | common/server_player.cpp:421-658 | one card played from a list to a table: an arrival there at the column the indexes answer with; a token that vanishes concerns no table |
| GameTables.TakePlayed | common/server_player.cpp:421-658 | one card without children taken from a table to a list: a departure with the compaction the indexes answer with, also for a token that vanishes |
| GameTables.PassPlayed | common/server_player.cpp:421-658 | one card, with children or without, moved to another table: an arrival there and a departure here, all others left alone |
| GameTables.CryptPlayed | common/server_player.cpp:321-355 | drawing crypt cards is so many draws beside the grid of the player's table |
| GameTables.QuietPlayed | common/server_player.cpp:357-1535 | draws, undo, mulligan, shuffle, moves between lists, turning cards over, arrows, phases, joining and stopping concern no table |
| GameAttach.UnattachPlayed | common/server_player.cpp:661-680 | unattaching, with the column and compaction the indexes answer with, is the table's own step |
| GameAttach.AttachPlayed | common/server_player.cpp:1305-1352 | attaching a card without children to one of its table, with the new parent set aside and both compactions as the indexes answer, is the table's own step |
| GameTables.WorldRunsAgree | common/server_player.cpp:321-1535 | over every run of commands so answered: it is a run of the game, all its invariants hold, and on every table at once the indexes agree with the cards and the next column is free |
| CardZone.EmptyPileAfter | common/server_cardzone.cpp:111-118 | the search loop ends and finds the first pile behind x with three unused slots |
| CardZone.RowWith | common/server_cardzone.cpp:102-123 | the insertion updates cells, listings and first empty pile of a row as specified |
| CardZone.CardZone.InsertCardIntoCoordMap | common/server_cardzone.cpp:102-123 | only the row y changes, and it changes as the row's insertion says |
| CardZone.CardZone.RemoveCardFromCoordMap | common/server_cardzone.cpp:75-100 | only the row y changes, and it changes as the row's removal says |
| CardZone.CardZone.GetFreeGridColumn | common/server_cardzone.cpp:182-222 | the branches and the search loop return the specified column |
| CardZone.CardZone.UpdateCardCoordinates | common/server_cardzone.cpp:277-285 | the index entry of the old place is replaced by that of the new one; when just this card's coordinates have changed to an unused slot, grid and coordinates are inverse again |
| CardZone.CardZone.InsertCard | common/server_cardzone.cpp:287-302 | list, zone field and indexes after an insertion, at an occupied slot too; grid and coordinates stay inverse when the slot was unused |
| CardZone.CardZone.RemoveCard | common/server_cardzone.cpp:125-145 | position, list, zone field and indexes after a removal; grid and coordinates stay inverse |
| CardZone.CardZone.Arrive | common/server_player.cpp:533-556 | getFreeGridColumn and insertCard together put an arriving card where no other card is, and the table is the specified one |
| CardZone.CardZone.ShiftCard | common/server_player.cpp:421-658 | in place, the specified move of one card on its table with the compaction after it |
| CardZone.CardZone.Depart | common/server_cardzone.cpp:125-145 | in place, the specified departure of cards with the compaction after it |
| CardZone.CardZone.AttachCard | common/server_player.cpp:1305-1352 | in place, on a good table, the specified attachment with the new parent set aside and both compactions |
| CardZone.CardZone.MoveCardInRow | common/server_cardzone.cpp:240-246 | the move within the row is moveCard's, with its refusal of cards with attachments at a taken bottom slot; table and inverse afterwards |
| CardZone.CardZone.FixFreeSpaces | common/server_cardzone.cpp:248-275 | the loop over the set of places, collected from all cards, gives the specified compaction in some visiting order of just those places |
| CardZone.CardZone.GetCard | common/server_cardzone.cpp:147-175 | hidden zones are addressed by position, others by the first card with that id; removal takes just that card out |
| GameState.LiftKeepsInv | common/server_cardzone.cpp:125-145 | taking a card out of its zone keeps the invariants, the card counting as lifted |
| GameState.SettleKeepsInv | common/server_player.cpp:526-560 | putting a lifted card down under its old or a new id keeps all invariants when it may land there |
| GameState.DestroyKeepsInv | common/server_card.cpp:32-40 | deleting a lifted card without links keeps all invariants |
| GameState.DropArrowsKeepsInv | common/server_player.cpp:507-522 | afterwards no arrow starts or ends at the card, and the invariants hold |
| GameState.SetParentDetaches | common/server_card.cpp:91-98 | setting no parent removes exactly the one link, in both directions |
| GameState.DetachKeepsInv | common/server_card.cpp:91-98 | taking a card off its parent keeps the invariants |
| Movement.Compact | common/server_cardzone.cpp:248-275 | seen from the cards, compaction keeps identities, places, attachments and players, and the invariants |
| Movement.UnattachCard | common/server_player.cpp:661-680 | exactly the link between the card and its parent is gone; invariants hold, nothing else moves between zones |
| Movement.UnattachAll | common/server_player.cpp:494-505 | the same for a list of children |
| Movement.MoveOne | common/server_player.cpp:466-640 | one card moves: tokens vanish on a change of zone name, others lie in the target zone; all other cards keep identity and place; invariants hold |
| Movement.SelectIff | common/server_player.cpp:438-465 | the checks fail, with RespNameNotFound, exactly if some request names no card of the zone; otherwise exactly the cards are selected that a request finds and that are neither attached nor kept back by their attachments, with the face the first request for them wants |
| Movement.SelectSelects | common/server_player.cpp:438-465 | no card is selected twice, and each at its position in the zone |
| Movement.BeforeIsStrictTotalOrder | common/server_player.cpp:48-104 | the order in which cards are moved is a strict total order |
| Movement.Sorted | common/server_player.cpp:48-104 | the cards to move are the selected ones, in that order |
| MovedCards.RowByRow | common/server_player.cpp:97-104 | the cards selected are moved row by row, in a row from left to right, in one slot in the zone's order |
| Movement.MoveLoop | common/server_player.cpp:466-640 | conservation over the loop: moved tokens vanish, other moved cards are in the target zone, the rest stays |
| Movement.MoveCards | common/server_player.cpp:421-658 | a refused move changes nothing; a successful one keeps the invariants |
| Movement.MoveCardsMovesSelected | common/server_player.cpp:421-658 | with which answer a move is refused, in the order of the checks; otherwise the moved cards are exactly the selected ones: tokens among them vanish on a change of zone name, the others are in the target zone, the rest stays |
| MovedCards.MovedAsAsked | common/server_player.cpp:421-658 | over the whole command: each moved card that does not vanish lies on a table as the first request for it asks, or as it lay if that asks for no face, and elsewhere face up; its id is a new one of the receiving player exactly if it goes face down to another zone, or to another owner, and else the old one |
| MovedCards.VanishesIff | common/server_player.cpp:524-560 | a moved card vanishes exactly if it is a token and goes to a zone of another name, whoever's; otherwise it lies in the target zone under its name |
| CommandRules.MoveAnswer | common/server_player.cpp:1145-1191 | each refusal of moveCard before it looks at the cards, in the order of the checks |
| CommandRules.MayMoveIff | common/server_player.cpp:1145-1191 | own cards may go to anybody's zones, those of others only to one's own and with permission; a judge may do all that |
| Commands.HiddenCardIsFree | common/server_player.cpp:321-389 | a card in a hidden or private zone has no parent, child or arrow |
| Commands.TransferTopKeepsInv | common/server_player.cpp:321-389 | moving the top card of the deck or crypt elsewhere keeps the invariants |
| Commands.DrawCards | common/server_player.cpp:357-389 | drawing keeps all invariants and the population of cards |
| Commands.DrawCryptCards | common/server_player.cpp:321-355 | crypt draws keep all invariants and the population of cards |
| Commands.MoveBetween | common/server_player.cpp:421-658 | a move in a running game keeps seats, tidiness and invariants, and a refused one changes nothing |
| Commands.UndoDraw | common/server_player.cpp:1118-1143 | undoing keeps all invariants |
| Commands.Mulligan | common/server_player.cpp:1025-1063 | a mulligan keeps all invariants |
| Commands.ReorderKeeps | common/server_player.cpp:986-1022 | any permutation of a zone keeps all invariants |
| CardLists.DrawTakesTop | common/server_player.cpp:357-389 | drawing n cards takes the first n of the deck, or all there are; in that order they become the last of the hand and their ids the last of the undo list; no other list, seat or card changes |
| CardLists.CryptDrawTakesTop | common/server_player.cpp:321-355 | the same from the crypt to the end of the table's list, where they lie face down left of the grid |
| CardLists.MoveLoopSplices | common/server_player.cpp:466-640 | between two lists the moved cards stand one behind the other from the position on, without tokens that vanish; the other cards of both lists keep their order and the other lists are the same |
| CardLists.ListOrderKept | common/server_player.cpp:48-104 | in a zone without coordinates the cards are moved in the order in which they lie there, whatever the order of the request |
| CardLists.MoveCardsSplices | common/server_player.cpp:421-658 | the whole command between two lists: when it succeeds, and both lists afterwards; x = -1 or beyond the end appends |
| CardLists.HandGoesUnderDeck | common/server_player.cpp:1037-1050 | before the shuffle of a mulligan the hand is empty and its cards, but for tokens, are under the deck in their order |
| CardLists.MulliganRedeals | common/server_player.cpp:1025-1063 | after a mulligan hand and deck together are one permutation of the old deck and hand without tokens, the hand being its first cards |
| UndoDraw.UndoAfterDrawIff | common/server_player.cpp:357-389 | drawing one card and undoing restores the state exactly, unless the card is a token, which is then gone |
| UndoDraw.DrawThenUndoIff | common/server_player.cpp:1118-1143 | n draws and n undos restore deck, hand, undo list and everything else exactly when no token was drawn; otherwise a card is gone |
| MovedCards.UndoAnswer | common/server_player.cpp:1118-1143 | undoing in any state: nothing without entries; else the last entry goes, and the card of that id goes from the hand to the top of the deck, face up, a token into nothing; RespNameNotFound if it is not in the hand any more |
| UndoList.MoveOneList | common/server_player.cpp:483-491 | which undo list a move cuts, and where |
| UndoList.CutAtLastEntry | common/server_player.cpp:483-491 | what is left of a cut list begins with the last entry of the card that left, which does not come again; without an entry the list stays |
| UndoList.CryptDrawTracksIff | common/server_player.cpp:321-355 | a crypt draw leaves the undo list naming cards of the hand exactly when the list was empty |
| UndoList.ExecTracks | common/server_player.cpp:421-658 | every tame command keeps the undo list naming cards of the hand |
| UndoList.UndoListTracksHand | common/server_player.cpp:483-491 | over every run in which p draws no crypt cards and only p takes cards out of p's hand, every entry but the first names a card in the hand, no two the same |
| UndoList.UndoListTracksHandInGames | common/server_player.cpp:483-491 | the same for every game from its creation on |
| Attachments.LinkKeepsInv | common/server_card.cpp:91-98 | hanging a card under another one changes just that link and keeps the depth-one forest |
| Attachments.HangUnder | common/server_player.cpp:1305-1335 | arrows and children go, the card hangs under the target, everything else keeps its place |
| Attachments.AttachCard | common/server_player.cpp:1305-1352 | attaching keeps all invariants, zones and the undo lists |
| Attachments.PlanIsAttachable | common/server_player.cpp:1258-1303 | what passes the checks is a card on a table to be hung under a parentless card on a table |
| CommandRules.AttachPlanIsRight | common/server_player.cpp:1245-1303 | which card the command hangs under which, or takes off, named by zone and id, and each refusal in its turn |
| Attachments.Attach | common/server_player.cpp:1245-1359 | the whole command keeps all invariants and the population |
| LinkEffects.AttachLinks | common/server_player.cpp:1305-1352 | the card hangs under its target, its former children under none, every other card where it did; exactly the arrows at the card are gone |
| Bystanders.AttachUndisturbed | common/server_player.cpp:1305-1352 | attaching, with all it sets off, leaves every card in its row with its face and id; the attached card lies at x = -1 |
| LinkEffects.UnattachLinks | common/server_player.cpp:1305-1359 | unattaching frees the card alone and removes exactly its arrows |
| Bystanders.UnattachCommandUndisturbed | common/server_player.cpp:1354-1359 | unattaching leaves every card in its row with its face and id, though the card's face is passed on as the switch for compaction |
| LinkEffects.MoveOneLinks | common/server_player.cpp:494-522 | a moved card leaves its children behind exactly when the zone's name changes, and its arrows exactly when the zone changes; no other link or arrow is touched |
| LinkEffects.MoveCardsLinks | common/server_player.cpp:421-658 | the same for all cards of a move command together |
| Bystanders.MoveUndisturbed | common/server_player.cpp:421-658 | moveCard disturbs no card that it does not move: all others, compacted or taken off their parents as well, keep row, face and id; the cards moved to a table lie in the row asked for |
| LinkEffects.UnattachForeignFrees | common/server_game.cpp:587-607 | exactly other players' cards under p's cards come off; lists of zones without coordinates stay |
| LinkEffects.ClearPlayerSpares | common/server_player.cpp:864-867 | for the others, a concession or departure cuts just the links to p's cards and the arrows related to p, and leaves their lists alone |
| Bystanders.ArrowsRelatedGo | common/server_game.cpp:554-585 | exactly the arrows that start or end at a card of p, or end at p, go; all others stay as they are |
| Tokens.AddCardKeepsInv | common/server_player.cpp:1391-1403 | a new card takes the owner's next id and keeps all invariants |
| Tokens.CreateToken | common/server_player.cpp:1362-1428 | exactly one card is new, all others keep their names; a refused command changes nothing |
| CommandRules.TokenIsAsAsked | common/server_player.cpp:1362-1428 | the token lies in the zone asked for under its name, the owner's next id and the wish to vanish on a zone change, whether or not a card is then hung under it; refusals in their order |
| CommandRules.TokenPlaced | common/server_player.cpp:1391-1403 | where the new token comes to lie: on a table at the column found and the row asked for, in a list at the place asked for, at its front for a negative one, at its end beyond the end; nothing else changes but the card counter |
| CommandRules.FlipAnswer | common/server_player.cpp:1193-1242 | when a card is turned over and by which answer it is not; then exactly that card's face changes |
| Tokens.NewArrowId | common/server_player.cpp:156-165 | the new arrow id is above all in use, and 1 or next to one in use |
| Tokens.CreateArrow | common/server_player.cpp:1431-1510 | a missing player or zone is reported before any other fault; a successful command adds one arrow under an unused id, a refused one changes nothing; invariants hold, so no two equal arrows exist |
| CommandRules.ArrowGoesWhereAsked | common/server_player.cpp:1431-1510 | a successful command draws exactly one arrow, under an id above all others in use, from the card of the named start zone and id to the named player or to the card of the named target zone and id |
| CommandRules.ArrowAnswer | common/server_player.cpp:1431-1510 | which of the refusals is given and when, for all requests, in terms of players, zones, cards and arrows that exist |
| Tokens.DeleteArrow | common/server_player.cpp:1513-1535 | deleting an arrow keeps cards, zones and invariants |
| CommandRules.DeleteArrowDeletes | common/server_player.cpp:1513-1535 | exactly the arrow of that id goes, everything else stays; the answers in their order |
| Tokens.ClearArrowsKeepsGame | common/server_game.cpp:639-661 | a phase change leaves no arrow at all and keeps the invariants |
| Lifecycle.DetachChildren | common/server_card.cpp:32-40 | the destructor's loop ends, every child is detached and the invariants hold |
| Lifecycle.Discard | common/server_card.cpp:32-40 | deleting a card with its links removes just that card |
| Lifecycle.ClearZones | common/server_player.cpp:256-274 | exactly p's cards, zones, arrows and undo list are gone |
| Lifecycle.RemoveArrowsRelatedKeepsInv | common/server_game.cpp:554-585 | afterwards no arrow has an end at p or at a card of p |
| Lifecycle.UnattachForeign | common/server_game.cpp:587-607 | other players' cards come off p's cards and stay on their tables |
| Lifecycle.ClearPlayer | common/server_player.cpp:864-867 | what a concession or departure leaves: nothing of p, everything of the others, no arrow related to p |
| Setup.FillZones | common/server_player.cpp:190-215 | as many cards as the deck lists are added under consecutive ids; invariants hold |
| Setup.ApplyPlan | common/server_player.cpp:217-247 | the sideboard plan leaves other players' zones alone and keeps cards, ids, names and invariants |
| Setup.SetUp | common/server_player.cpp:167-254 | setting up adds exactly the deck's cards to p and touches nobody else |
| DeckSetup.HashCoversSetup | common/server_player.cpp:189-215 | the cards made at setup, zone by zone and row by row, are exactly the copies the deck's hash is computed from, in the same order |
| DeckSetup.FillMakes | common/server_player.cpp:207-213 | one new card per copy, under consecutive ids, at the end of library or crypt; all other cards stay the same |
| DeckSetup.ApplyMoveMoves | common/server_player.cpp:217-247 | a move of the sideboard plan takes the first card of its name to the end of the other zone, and nothing happens without such a card |
| DeckSetup.PlanKeepsBoth | common/server_player.cpp:217-247 | over a whole plan library and sideboard together hold the same cards and no other zone changes |
| DeckSetup.SetUpDeals | common/server_player.cpp:167-254 | after setting up, copy i of the deck list is a card with id i and its name; the crypt is in the list's order, library and sideboard share the library cards, all other zones are empty |
| GameRuns.Concede | common/server_player.cpp:851-879 | exactly p's cards are gone and all invariants hold |
| GameRuns.Leave | common/server_game.cpp:503-552 | exactly p's cards and p are gone and all invariants hold |
| GameRuns.Unconcede | common/server_player.cpp:882-906 | p is active again, and just the deck's cards are new |
| GameRuns.JoinKeeps | common/server_game.cpp:454-501 | somebody joining keeps all invariants |
| GameRuns.StopGameKeeps | common/server_game.cpp:375-403 | stopping keeps all invariants |
| GameRuns.StartGame | common/server_game.cpp:312-361 | everybody who plays is set up and active, and all invariants hold |
| GameRuns.Exec | common/server_player.cpp:2052-2163 | every command keeps all invariants |
| GameRuns.InvariantsHold | common/server_player.cpp:167-1535 | over every run: each card in exactly one zone that it knows, ids distinct below the counter, a depth-one attachment forest on tables at x = -1, arrows between public cards or a card and a present player and no two equal, zones only for active players |
| GameRuns.EveryGameKeepsInvariants | common/server_player.cpp:167-1535 | the same for every game from its creation on |
| Conservation.OrdinaryKeeps | common/server_player.cpp:321-1359 | no ordinary command adds a card or changes a name; only tokens can disappear |
| Conservation.EveryCommandAccounts | common/server_player.cpp:167-1535 | for every command: the new cards are exactly those it makes, each of its name and kind (a deck's, all decks' at the start, one token); exactly the cards go that a concession, departure or stop removes, and with all other commands only tokens; the rest keep name and kind |
| Conservation.EveryRunAccounts | common/server_player.cpp:167-1535 | over every run of any commands: a card at the end was there at the start or was made by a command of the run, with the name and kind it has; a card that is missing went with a command that may remove it |
| Conservation.RunsConserveCards | common/server_player.cpp:167-1535 | over every ordinary run the cards are conserved but for tokens; without tokens the very same cards exist throughout |
| PlayerCards.CardGame.DetachAllChildren | common/server_card.cpp:32-40 | the loop ends because the list of children shortens, with no child left |
| PlayerCards.CardGame.UnattachCard | common/server_player.cpp:661-680 | in place, the specified unattachment |
| PlayerCards.CardGame.RemoveArrowsAt | common/server_player.cpp:507-522 | the nested loops delete exactly the arrows from or to the card |
| PlayerCards.CardGame.SelectCards | common/server_player.cpp:438-465 | the loop makes the specified selection or stops with the specified error |
| PlayerCards.CardGame.MoveOneCard | common/server_player.cpp:466-640 | in place, the specified move of one card |
| PlayerCards.CardGame.MoveCard | common/server_player.cpp:421-658 | state and response of the whole in-place command are the specified ones |
| PlayerCards.CardGame.AttachCard | common/server_player.cpp:1305-1352 | in place, the specified attachment |
| PlayerCards.CardGame.NextArrowId | common/server_player.cpp:156-165 | the loop over the arrows yields the specified unused id |
| PlayerCards.CardGame.DealCards | common/server_player.cpp:189-215 | the loops over zones, rows and copies make the specified cards |
| PlayerCards.CardGame.FollowPlan | common/server_player.cpp:217-247 | the loop over the plan, with its search by position, makes the specified moves |
| PlayerCards.CardGame.SetupZones | common/server_player.cpp:167-254 | in place, the specified setup |
| PlayerCards.CardGame.DeleteCard | common/server_card.cpp:32-40 | in place, the specified deletion of one card with its links |
| PlayerCards.CardGame.ClearZones | common/server_player.cpp:256-274 | the loops over zones and cards leave what is specified |
| PlayerCards.CardGame.RemoveArrowsRelatedTo | common/server_game.cpp:554-585 | collecting and then deleting by id, with doubles, removes exactly the related arrows |
| PlayerCards.CardGame.UnattachForeignCards | common/server_game.cpp:587-607 | in place, the specified unattachments |
| PlayerCards.CardGame.ClearPlayer | common/server_player.cpp:864-867 | the three steps in their order leave what is specified |
| PlayerCards.CardGame.DrawCards | common/server_player.cpp:357-389 | the loop draws as specified and stops at an empty deck |
| PlayerCards.CardGame.DrawCryptCards | common/server_player.cpp:321-355 | the loop draws as specified and stops at an empty crypt |
| PlayerCards.CardGame.UndoDraw | common/server_player.cpp:1118-1143 | in place, the specified undo with its response |
| PlayerCards.CardGame.Mulligan | common/server_player.cpp:1025-1063 | in place, the specified mulligan |
| TurnOrder.NextActive | common/server_game.cpp:663-686 | the next active player is an eligible one |
| TurnOrder.FoundIsNext | common/server_game.cpp:663-686 | where the index loop stops is the cyclically next eligible id |
| TurnOrder.StillLooking | common/server_game.cpp:669-683 | while nobody eligible was seen the loop has slots left and comes closer to its end |
| TurnOrder.RotationVisitsEachOnce | common/server_game.cpp:663-686 | with k eligible players, k turns in either direction return to the start and visit each exactly once |
| TurnOrder.ReverseUndoesTurn | common/server_game.h:194-197 | a turn forward and a turn backward cancel, in either order |
| TurnGame.TurnSafety | common/server_game.cpp:312-686 | over every run with maxPlayers >= 1: a running, open game has an active player who plays, a present host, at most maxPlayers participants, and cannot restart |
| TurnGame.LeftSound | common/server_game.cpp:503-552 | a departure keeps the table sound |
| TurnGame.ExecSound | common/server_game.cpp:312-686 | every command keeps the table sound |
| TurnGame.NoRestart | common/server_game.cpp:312-326 | in a running game the start condition fails |
| TurnRules.StartsIff | common/server_game.cpp:312-361 | a game starts exactly when as many players as wanted are seated and every one of them is ready; then nobody has conceded or is ready, and the lowest id - reversed: the highest - begins in phase 0 |
| TurnRules.LeavingHandsOver | common/server_game.cpp:503-552 | the game closes exactly when its host leaves and only spectators remain; another host who leaves is followed by the player with the lowest id |
| TurnRules.LeavingStopsIff | common/server_game.cpp:375-403 | a running game that stays open goes on exactly when a spectator left or two are left to play it, and else forgets all concessions |
| TurnRules.ConcedeAnswer | common/server_player.cpp:851-879 | whose concession counts, when it stops the game, whose seats change, and who has the turn then |
| TurnRules.EndTurnAnswer | common/server_player.cpp:1751-1769 | who may end the turn, judges included; it goes to the next of those still playing, in phase 0 |
| TurnGame.ClosingStrandsTheTurn | common/server_game.cpp:524-539 | a reachable closed game that still counts as started has nobody eligible |
| TurnGame.TableRotation | common/server_game.cpp:663-686 | while seats stay as they are, turns visit every eligible player once per round |
| TurnGame.TurnReverseTurn | common/server_player.cpp:2028-2049 | ending a turn, reversing the order and ending a turn gives the first player the turn back |
| TurnGame.LeavingRestartsTheRound | common/server_game.cpp:503-552 | after the active player left, the turn is at the lowest or, reversed, the highest eligible id |
| TurnGame.LeavingPassesOnIff | common/server_game.cpp:663-686 | that is the next in the direction of play exactly if no eligible id is below the leaver or none is above |
| TurnGame.MiddlePlayerLeaves | common/server_game.cpp:663-686 | concrete table of three: the middle player leaves during the turn and the first, not the third, is next |
| WholeGame.SeatsLeadCards | common/server_game.cpp:312-686 | whatever a command about seats does to the cards - setting up, clearing, stopping, deleting arrows - is a run of card commands that may be given, and both sides agree again after it |
| WholeGame.CardCommandRoles | common/server_player.cpp:321-1535 | no command about cards changes who takes part, in which role, or whether the game runs |
| WholeGame.WholeGamesAgree | common/server_game.cpp:312-686 | over every game, its commands about seats and about cards mixed in any way: seats and cards agree on who takes part, in which role, and whether the game runs; the player whose turn it is has all zones; exactly those still playing a running game have zones, cards and arrows |
| Game.ServerGame.constructor | common/server_protocolhandler.cpp:817-827 | a created game holds its creator under id 0 |
| Game.ServerGame.CheckJoin | common/server_game.cpp:405-441 | the checks answer as specified, in their order |
| Admission.AdmittedIff | common/server_game.cpp:405-441 | a visitor is admitted exactly if nobody seated has the name, a judge's seat is asked for by a judge, password, registration, buddies, ignore list and spectators are met or overridden by a moderator, and a player finds the game not begun and a place free |
| Admission.FirstObstacleIsTold | common/server_game.cpp:405-441 | of the eight obstacles, listed in their order, the first one met is answered, and nothing changes |
| Admission.SeatsAreKept | common/server_game.cpp:454-501 | no command but joining seats anybody, and none changes name, spectating or judging of somebody seated |
| Admission.SeatsAreEarned | common/server_game.cpp:405-441 | in every game, whoever is seated is its creator under id 0 or joined by a command of the run, then knowing the password, registered, a buddy, not ignored and allowed to watch where asked for, or as an overriding moderator; judges' seats are held by judges |
| Game.ServerGame.Join | common/server_room.cpp:269-276 | a refused visitor changes nothing, an admitted one takes a seat |
| Game.ServerGame.AddPlayer | common/server_game.cpp:454-501 | the new seat, the next id, and the host for a participating creator |
| Game.ServerGame.NextTurn | common/server_game.cpp:663-686 | the loop terminates when somebody is eligible and the turn goes to the cyclically next of them |
| Game.ServerGame.SearchFrom | common/server_game.cpp:669-683 | the search loop ends at an eligible player having skipped only others |
| Game.ServerGame.StopGameIfFinished | common/server_game.cpp:375-403 | with fewer than two players left the game stops and concessions are taken back |
| Game.ServerGame.RemovePlayer | common/server_game.cpp:503-552 | host hand-over or closing, stopping, and passing on the turn, as specified |
| Game.ServerGame.KickPlayer | common/server_game.cpp:609-624 | only a present player is removed |
| Game.ServerGame.StartGameIfReady | common/server_game.cpp:312-361 | the game starts exactly when enough are seated and all participants are ready |
| Game.ServerGame.ReadyStart | common/server_player.cpp:927-953 | readiness changes only before the start and with a deck |
| Game.ServerGame.Concede | common/server_player.cpp:851-879 | response and table after a concession |
| Game.ServerGame.Unconcede | common/server_player.cpp:882-906 | response and table after taking a concession back |
| Game.ServerGame.EndTurn | common/server_player.cpp:1751-1769 | who may end the turn, and the table afterwards |
| Decimal.PrintThenRead | common/decklist.cpp:272-273 | every 32-bit number reads back from its decimal form |
| DeckXml.TreesRoundTrip | common/decklist.cpp:261-306 | reading what was written of nested zones and cards appends exactly those |
| DeckXml.PlanRoundTrip | common/decklist.cpp:28-72 | a sideboard plan reads back with its name and moves |
| DeckXml.DocumentRoundTrip | common/decklist.cpp:388-453 | a written deck read into any list: name, comments and merged zones are the deck's, plans are the old ones overridden by the deck's |
| DeckXml.RoundTripIff | common/decklist.cpp:388-453 | read into an empty list a deck comes back exactly when its top-level zones have distinct names |
| DeckRules.ZoneIsWritten | common/decklist.cpp:261-306 | the tags and attributes of a zone with a card in it |
| DeckRules.PlanIsWritten | common/decklist.cpp:60-72 | the tags of a sideboard plan with a move |
| DeckRules.DeckIsWritten | common/decklist.cpp:411-425 | the order of version, name, comments, zones and plans in the document |
| DeckLists.DeckList.ReadZoneElement | common/decklist.cpp:261-280 | the recursive reading loop yields the specified tree, on fresh nodes, and stops behind the end tag |
| DeckLists.DeckList.ReadDeckElement | common/decklist.cpp:388-409 | one step of the deck's reader as specified |
| DeckLists.DeckList.ReadPlanElement | common/decklist.cpp:28-58 | the plan loop reads as specified |
| DeckLists.DeckList.ContinueZone | common/decklist.cpp:634-644 | the first zone of the name is continued, or a new one is added at the end |
| DeckLists.DeckList.LoadFromXml | common/decklist.cpp:427-453 | deck, answer and hash after loading; a reader that has failed before changes nothing |
| DeckLists.DeckList.Write | common/decklist.cpp:411-425 | the writer's loops emit exactly the document's tokens |
| DeckHash.SortedUnique | common/decklist.cpp:825 | a multiset of lines has one sorted listing, whatever the algorithm |
| DeckHash.ShownIsEightDigits | common/decklist.cpp:826-831 | a valid hash is always exactly eight base-32 digits that spell the first five bytes |
| DeckHash.ShownIffFirstFive | common/decklist.cpp:826-831 | two valid hashes are equal exactly when the first five digest bytes are |
| DeckRules.DigitsShown | common/decklist.cpp:826-831 | each of the eight characters is a digit, 0 to 9 and a to v, of the number that the first five bytes spell, the first byte counting most |
| DeckHash.HashIsCanonical | common/decklist.cpp:800-832 | the hash depends only on validity and the multiset of hashed copies |
| DeckRules.InvalidIff | common/decklist.cpp:800-832 | a deck is invalid exactly if a zone other than library, crypt and tokens holds anything |
| DeckRules.SampleIsHashed | common/decklist.cpp:800-832 | a concrete deck for any names: two copies of a library card, one of a crypt card marked SB:, in lower case, sorted, joined by semicolons; tokens do not count |
| DeckHash.HashIgnoresZoneOrder | common/decklist.cpp:800-832 | reordering zones leaves the hash unchanged |
| DeckHash.HashIgnoresRowOrder | common/decklist.cpp:800-832 | reordering the rows of a zone leaves the hash unchanged |
| DeckHash.HashIgnoresRowSplits | common/decklist.cpp:800-832 | splitting the number of a row in two leaves the hash unchanged |
| DeckEdit.PrunedFinds | common/decklist.cpp:757-798 | deletion succeeds exactly for nodes of the tree and otherwise changes nothing |
| DeckEdit.PrunedKeepsTheRest | common/decklist.cpp:757-798 | the node with all below it and exactly the ancestors that held nothing else are gone; all others keep parent, name, number and order |
| DeckEdit.PrunedCount | common/decklist.cpp:161-176 | both recursive counts fall by what the deleted node counted |
| DeckRules.CountsCards | common/decklist.cpp:161-176 | the recursive count is the number of cards anywhere below, or of the copies they stand for together |
| DeckEdit.PrunedUnique | common/decklist.cpp:757-798 | the identities that are left are still distinct |
| DeckEdit.DeleteUndoesAddIff | common/decklist.cpp:744-798 | deleting a card just added restores the tree exactly if it did not go into an empty zone |
| DeckEdit.OneCopyMore | common/decklist.cpp:744-755 | adding a card adds exactly its one entry to the hashed copies, or none outside library and crypt |
| DeckRules.CardGoesToEnd | common/decklist.cpp:744-755 | the first zone of the name gets the card at its end, and without one a new zone at the end of the deck does |
| DeckLists.DeckList.DeleteNode | common/decklist.cpp:757-798 | true for the root, which stays, and for nodes of the tree; tree and hash afterwards |
| DeckLists.DeckList.AddCard | common/decklist.cpp:744-755 | tree and hash after adding a card, whose node is returned |
| DeckLists.DeckList.UpdateDeckHash | common/decklist.cpp:800-833 | the loops over zones, rows and copies give the specified hash |
| DeckSort.CompareIsStrictWeakOrder | common/decklist.cpp:178-259 | each comparison is a strict weak order over cards and zones mixed |
| DeckRules.WhichComesFirst | common/decklist.cpp:178-259 | cards go before zones; by name the later word goes first, by number more copies and then the later word |
| Flood.WindowIsExact | common/server_protocolhandler.cpp:266-290 | after every run the bucket list has at most the window's length, sums up exactly the window of the full history, and decides by it |
| Flood.NeverTooMuch | common/server_protocolhandler.cpp:378-404 | in no window of consecutive ticks is more than the limit let through |
| Flood.ContainerIsUses | common/server_protocolhandler.cpp:266-298 | handling a container is a run of the limiter, and what it carries out is what was let through |
| Flood.AllCarriedOutIff | common/server_protocolhandler.cpp:266-298 | a container is carried out wholly exactly if its commands off the list, with what the buckets hold, keep within the limit |
| Flood.ListedAreFree | common/server_protocolhandler.cpp:280-281 | commands on the list never use up the limit: without them the very same other commands are carried out |
| Flood.BurstsAreBounded | common/server_protocolhandler.cpp:266-404 | whatever happens to a connection, in no stretch of ticks as long as the counting window are more commands off the list carried out than the limit says, however they are spread over containers |
| Flood.ProtocolHandler.PingClockTimeout | common/server_protocolhandler.cpp:378-404 | each tick shifts the lists by one bucket and keeps them within their room |
| Flood.ProtocolHandler.AddSaidMessageSize | common/server_protocolhandler.cpp:737-763 | a message passes exactly when neither window runs over, and is counted in both anyway |
| Flood.ProtocolHandler.ProcessContainer | common/server_protocolhandler.cpp:266-300 | commands are carried out from the last on until the counter runs over; events are sent only if it did not |
| Fanout.FanoutIsFaithful | common/server_response_containers.cpp:51-78 | when private events name the player the log is split for, each player is sent exactly the events that their class means for that player, in order: private ones for the named player and overseers, those for the others for everybody else, two-sided ones for all; the replay gets what an overseer gets |
| Fanout.ToldAsMeantIff | common/server_response_containers.cpp:41-61 | every event reaches exactly the players its class means it for if and only if the private events name the player of the split or the names matter to nobody at the table, and events for the others come with a private one |
| Fanout.JudgeMisleadsIff | common/server_response_containers.cpp:51-61 | a log forced by a judge is told as meant exactly if it has no private event |
| Fanout.OneNameIsRight | common/server_response_containers.cpp:41-49 | a log of commands that move no other player's cards - private events naming one player, all other events nobody - is rightly split for that player |
| Fanout.TwoNamesMislead | common/server_response_containers.cpp:51-78 | a log whose private events name two seated players who do not oversee the game is not told as meant, however it is split |
| Fanout.MoveFreesAnothersCard | common/server_player.cpp:494-505 | the log of a move that first takes another player's card off: the mover is sent both private forms, the other player neither, and it is not told as meant |
| Fanout.TwoSidedReachAll | common/server_response_containers.cpp:62-70 | on either side each event for both arrives exactly as often as it was enqueued, and besides them exactly the events for that side |
| Fanout.LaterNameWins | common/server_response_containers.cpp:47-48 | two private events naming different players: the first player misses theirs, the second gets both |
| Fanout.NobodyNamed | common/server_response_containers.cpp:41-61 | an event for the others without a private one is kept from player 0 |
| Fanout.Game.SendGameEventContainer | common/server_game.cpp:720-741 | exactly the players on the addressed sides receive the container, the replay the private one |
| Fanout.GameEventStorage.EnqueueGameEvent | common/server_response_containers.cpp:41-49 | the log grows by the event and the named player is remembered |
| Fanout.GameEventStorage.SendToGame | common/server_response_containers.cpp:51-78 | every player gets one container with the events of that player's side in order, the replay the private side, and nothing is sent for an empty log |

## Left out

- The client, the web client, networking, inter-server links, the database, logins: input and output.
- Threads and locks: a command is one step. The start signal is queued in the original; here it may arrive at any time.
- Events of the card commands: `Fanout` models how events are split, not which events each command enqueues.
- Which cards a player is looking at, write permissions (a parameter of `DoMove`), zone dumps, revealing cards, counters, card attributes, rolling dice, chat.
- Aliasing of card objects: cards are named by references into a map; zones, lists and links are updated in that map.
- Movement.Compact: which cards move and to which columns is a parameter here; `TableLinks.CompactIsAllFixed` says what the indexes answer with.
- Movement.MoveOne: the column given on a table is a parameter here; `GameTables` and `GameAttach` put in what the indexes answer with. Face and id of the moved card are stated by `MovedCards.MovedAsAsked`.
- PileRowProofs.RemoveKeepsIndexed: which listings go and come is stated by `Stacking.RemovalListings`, not by this contract.
- CardZone.CardZone.RemoveCardFromCoordMap: ties the class to the row's removal; what that is, is stated by `Stacking.RemovalListings` and `PileRowProofs.RemoveKeepsIndexed`.
- PlayerCards.CardGame.MoveOneCard: ties the class to `Movement.MoveOne`; face and id of the moved card are stated by `MovedCards.MovedAsAsked`.
- Tokens.CreateArrow: which arrow is drawn, and when it is refused, is stated by `CommandRules.ArrowGoesWhereAsked` and `ArrowAnswer`.
- Game.ServerGame.CheckJoin: ties the class to the value form; who is admitted is stated by `Admission.AdmittedIff` and `FirstObstacleIsTold`.
- Flood.ContainerIsUses: which commands count is stated by `ListedAreFree`, `AllCarriedOutIff` and `BurstsAreBounded`.
- Flood.ProtocolHandler.ProcessContainer: the same.
- Movement.MoveCards: which cards a move takes is stated by `MoveCardsMovesSelected`, not by this contract.
- Commands.MoveBetween: the same.
- Setup.ApplyPlan: that library and sideboard alone change is stated by `PlanKeepsBoth`.
- TableSteps.DepartedGood: the cards that leave have no attached cards that return to this table; `TableRuns.ParentDeparts` has them.
- CardZone.CardZone.Depart: the same.
- CardZone.CardZone.Arrive: for x < 0 the row's indexes have to be right; the original serves a row that was spoiled before as well, and may then put two cards into one slot.
- CardZone.CardZone.ShiftCard: the same for the table.
- CardZone.CardZone.AttachCard: the same; tables that were spoiled before are not covered.
- TableRuns: several cards moved on one table by one command are covered when they come from other rows and carry no attachments; within their own row, or with attachments, they are not. Tables on which a parent shares its pile are outside the runs, even while their indexes still agree.
- GameTables: of the commands that concern tables, moves of several cards, cards with children going to lists, cards attached to another table's, tokens, and the beginning and end of a player's part in the game are not joined with the indexes; for these the columns stay parameters.
- The checks of attaching, creating tokens and arrows, starting and stopping are functions on the state and not methods of `CardGame`, which finds all cards to unattach before it unattaches the first; the arrows deleted by a turn or phase change are in `Tokens` and `WholeGame`, not in `Game`.
- In `Leave` the arrows and attachments of a player go before the player's seat does; the original removes the seat from the map first, which those loops do not depend on except that the player's own arrows need no deleting.
- Malformed commands are preconditions: attaching a card to itself, unattaching through a missing target zone, negative rows for tokens, hashing a deck with zones nested inside library or crypt, `maxPlayers` below 1.
- The XML library: documents are sequences of start, end and text tokens; character escaping and malformed documents are not modelled. Blanks around numbers are not accepted by `Decimal.ToInt`, while the original's conversion skips them.
- Deck nodes are values with identities instead of heap objects with parent pointers: pruning happens on the way back instead of by climbing.
- `InnerDecklistNode::sort` beyond its comparison, plain-text decks, name clean-up, the digest and the random word generator themselves, idle and inactivity timeouts.
- Flood.WindowIsExact: settings are constant over a run.
