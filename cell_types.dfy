/**
 * Cell types of cell updates. On the binary wire a type is one byte
 * (0..8 the number of an opened cell, 9 an opened mine, 10..12 the
 * training hints SAFE/UNKNOWN/MINE, 255 a closed cell); in the
 * schema-driven format it is the `CellType` enum, whose numbers are the
 * same bytes and whose names the client maps back to numbers.
 */
module CellTypes {
  import opened Common

  const CellTypeClosed: byte := 255
  const CellTypeMine: byte := 9
  const CellTypeSafe: byte := 10
  const CellTypeUnknown: byte := 11
  const CellTypeDanger: byte := 12

  /** The `CellType` enum: `CELL_TYPE_NEIGHBOR_0` .. `_8`, `MINE`, `SAFE`, `UNKNOWN`, `DANGER`, `CLOSED`. */
  datatype CellType = Neighbor(n: int) | Mine | Safe | Unknown | Danger | Closed

  /** A neighbour count the enum has a member for. */
  predicate IsMember(t: CellType) {
    t.Neighbor? ==> 0 <= t.n <= 8
  }

  /** The enum's number: the byte it stands for. */
  function EnumNumber(t: CellType): int {
    match t
    case Neighbor(n) => n
    case Mine => CellTypeMine
    case Safe => CellTypeSafe
    case Unknown => CellTypeUnknown
    case Danger => CellTypeDanger
    case Closed => CellTypeClosed
  }

  /** A byte some enum member stands for. */
  predicate IsCellTypeByte(b: int) {
    0 <= b <= 12 || b == 255
  }

  /**
   * `byteToCellType`: bytes 0..8 are the neighbour members, 9..12 and 255
   * their own members, and every other byte falls back to `CLOSED`.
   */
  function ByteToCellType(b: byte): (t: CellType)
    ensures IsMember(t)
    ensures IsCellTypeByte(b) ==> EnumNumber(t) == b
    ensures !IsCellTypeByte(b) ==> t == Closed
  {
    if b <= 8 then Neighbor(b)
    else if b == CellTypeMine then Mine
    else if b == CellTypeSafe then Safe
    else if b == CellTypeUnknown then Unknown
    else if b == CellTypeDanger then Danger
    else Closed
  }

  /** Every member is recovered from its own number. */
  lemma ByteToCellTypeInverts(t: CellType)
    requires IsMember(t)
    ensures IsCellTypeByte(EnumNumber(t)) && ByteToCellType(EnumNumber(t) as byte) == t
  {
  }

  /** The enum member's name in the schema. */
  function EnumName(t: CellType): string
    requires IsMember(t)
  {
    match t
    case Neighbor(n) =>
      if n == 0 then "CELL_TYPE_NEIGHBOR_0" else if n == 1 then "CELL_TYPE_NEIGHBOR_1"
      else if n == 2 then "CELL_TYPE_NEIGHBOR_2" else if n == 3 then "CELL_TYPE_NEIGHBOR_3"
      else if n == 4 then "CELL_TYPE_NEIGHBOR_4" else if n == 5 then "CELL_TYPE_NEIGHBOR_5"
      else if n == 6 then "CELL_TYPE_NEIGHBOR_6" else if n == 7 then "CELL_TYPE_NEIGHBOR_7"
      else "CELL_TYPE_NEIGHBOR_8"
    case Mine => "CELL_TYPE_MINE"
    case Safe => "CELL_TYPE_SAFE"
    case Unknown => "CELL_TYPE_UNKNOWN"
    case Danger => "CELL_TYPE_DANGER"
    case Closed => "CELL_TYPE_CLOSED"
  }

  /**
   * `convertCellTypeStringToNumber`: the client's name-to-number table,
   * and 255 (closed) for a name the table lacks.
   */
  function CellTypeStringToNumber(typeStr: string): int {
    if typeStr == "CELL_TYPE_NEIGHBOR_0" then 0
    else if typeStr == "CELL_TYPE_NEIGHBOR_1" then 1
    else if typeStr == "CELL_TYPE_NEIGHBOR_2" then 2
    else if typeStr == "CELL_TYPE_NEIGHBOR_3" then 3
    else if typeStr == "CELL_TYPE_NEIGHBOR_4" then 4
    else if typeStr == "CELL_TYPE_NEIGHBOR_5" then 5
    else if typeStr == "CELL_TYPE_NEIGHBOR_6" then 6
    else if typeStr == "CELL_TYPE_NEIGHBOR_7" then 7
    else if typeStr == "CELL_TYPE_NEIGHBOR_8" then 8
    else if typeStr == "CELL_TYPE_MINE" then 9
    else if typeStr == "CELL_TYPE_SAFE" then 10
    else if typeStr == "CELL_TYPE_UNKNOWN" then 11
    else if typeStr == "CELL_TYPE_DANGER" then 12
    else if typeStr == "CELL_TYPE_CLOSED" then 255
    else 255
  }

  /** The client's map and the enum agree: each member's name maps to its number. */
  lemma NameMapsToNumber(t: CellType)
    requires IsMember(t)
    ensures CellTypeStringToNumber(EnumName(t)) == EnumNumber(t)
  {
  }

  /**
   * Every number the map yields is a cell-type byte, and every number
   * other than 255 comes from the name of the member it stands for: a
   * name no member has maps to 255.
   */
  lemma NumberComesFromName(typeStr: string)
    ensures IsCellTypeByte(CellTypeStringToNumber(typeStr))
    ensures CellTypeStringToNumber(typeStr) != 255 ==>
              var t := ByteToCellType(CellTypeStringToNumber(typeStr) as byte);
              EnumName(t) == typeStr
  {
    var n := CellTypeStringToNumber(typeStr);
    if 0 <= n <= 8 {
      assert ByteToCellType(n as byte) == Neighbor(n);
    } else if n != 255 {
      assert 9 <= n <= 12;
    }
  }
}
