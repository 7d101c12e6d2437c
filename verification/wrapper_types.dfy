/** The data declarations of `ProjectMWrapper.h`: the rating database record,
    the database itself and the cursor direction of the preset browser. */
module WrapperTypes {
  import opened CText

  /** `struct DBPreset`: what the database keeps per preset. A
      default-constructed record, `DBPreset{}`, is `DBPreset(0, 0)`. */
  datatype DBPreset = DBPreset(rating: Int32, playcount: Int32)

  /** `DBPM`, a `std::map` from preset name to record: one record per name. */
  type DBPM = map<string, DBPreset>

  /** `enum CursorDir`. */
  datatype CursorDir =
    | CursorNone | CursorUp | CursorDown | CursorPageUp | CursorPageDown
    | CursorShiftUp | CursorShiftDown | CursorShiftPageUp | CursorShiftPageDown
  {
    /** The enumerator's integer value. */
    function Ordinal(): (n: int)
      ensures 0 <= n <= 8
      ensures n == 0 <==> this == CursorNone
    {
      match this
      case CursorNone => 0
      case CursorUp => 1
      case CursorDown => 2
      case CursorPageUp => 3
      case CursorPageDown => 4
      case CursorShiftUp => 5
      case CursorShiftDown => 6
      case CursorShiftPageUp => 7
      case CursorShiftPageDown => 8
    }
  }

  /** The enumerator with a given value, for the values the enum defines. */
  function CursorDirOf(n: int): (c: CursorDir)
    requires 0 <= n <= 8
  {
    if n == 0 then CursorNone
    else if n == 1 then CursorUp
    else if n == 2 then CursorDown
    else if n == 3 then CursorPageUp
    else if n == 4 then CursorPageDown
    else if n == 5 then CursorShiftUp
    else if n == 6 then CursorShiftDown
    else if n == 7 then CursorShiftPageUp
    else CursorShiftPageDown
  }

  /** The nine enumerators have the nine distinct values 0 to 8. */
  lemma OrdinalsDistinct(n: int, c: CursorDir)
    requires 0 <= n <= 8
    ensures CursorDirOf(n).Ordinal() == n
    ensures CursorDirOf(c.Ordinal()) == c
  {
  }
}
