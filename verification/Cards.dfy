/** Cards and the places they can be in (common/server_card.h, common/server_player.cpp:173-183). */
module Cards {
  import opened Wrappers

  /** Stands for a pointer to a card object. */
  type CardRef = nat

  datatype ZoneName = Deck | Crypt | Sideboard | Table | Hand | Stack | Grave | Rfg

  datatype ZoneType = PrivateZone | PublicZone | HiddenZone

  /** A zone is named by its owner's player id and its name. */
  datatype Place = Place(owner: int, zone: ZoneName)

  function TypeOf(z: ZoneName): ZoneType
  {
    match z
    case Deck | Crypt | Sideboard => HiddenZone
    case Hand => PrivateZone
    case Table | Stack | Grave | Rfg => PublicZone
  }

  /** Only the table has coordinates. */
  predicate HasCoords(z: ZoneName)
  {
    z == Table
  }

  datatype Card = Card(
    id: int,
    name: string,
    destroyOnZoneChange: bool,
    faceDown: bool,
    x: int,
    y: int,
    zone: Option<Place>,
    parent: Option<CardRef>,
    attached: seq<CardRef>)

  /** All card objects alive on the server. */
  type Heap = map<CardRef, Card>
}
