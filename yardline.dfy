/** Field position in the newer engine (`Yardline` of nfl_types.py): a signed distance
    from midfield, negative in the possessing team's own half, with the side of the field
    and the distance from that side's goal line derived from it. */
module Yardlines {
  import opened Base

  /** `'OWN'` / `'OPP'`: the possessing team's own half or the opponent's. */
  datatype Side = Own | Opp

  /** `yard_int` with the fields `__post_init__` derives. Absent throughout when the
      position is unknown. */
  datatype Yardline = Yardline(yardInt: Option<int>, side: Option<Side>, sidePos: Option<int>)

  /** `Yardline(yard_int)` followed by `__post_init__`. */
  function MakeYardline(y: Option<int>): (r: Yardline)
    ensures r.yardInt == y
    ensures r.side.None? <==> y.None?
    ensures r.sidePos.None? <==> y.None?
  {
    match y
    case None => Yardline(None, None, None)
    case Some(v) =>
      if v == 0 then Yardline(y, Some(Own), Some(50))
      else Yardline(y, Some(if v <= 0 then Own else Opp), Some(if v <= 0 then 50 + v else 50 - v))
  }

  /** The unknown position, `Yardline(None)`. */
  const Unknown: Yardline := MakeYardline(None)

  /** Reads a signed distance back from a side and a distance from that side's goal line. */
  function YardIntOf(side: Side, sidePos: int): int {
    match side
    case Own => sidePos - 50
    case Opp => 50 - sidePos
  }

  /** The derived fields determine the signed distance: `side`/`side_pos` and `yard_int`
      say the same thing. */
  lemma SideRoundTrip(y: int)
    ensures var r := MakeYardline(Some(y));
            r.side.Some? && r.sidePos.Some? && YardIntOf(r.side.value, r.sidePos.value) == y
  {
  }

  /** Midfield belongs to the possessing team's own half at 50; any other position lies on
      the own side exactly when it is negative, at `50 - |y|` from that side's goal line. */
  lemma SideOfPosition(y: int)
    ensures var r := MakeYardline(Some(y));
            (y == 0 ==> r.side == Some(Own) && r.sidePos == Some(50)) &&
            (y < 0 ==> r.side == Some(Own) && r.sidePos == Some(50 + y)) &&
            (y > 0 ==> r.side == Some(Opp) && r.sidePos == Some(50 - y))
  {
  }

  /** A position on the field, within 50 yards of midfield, lies between a goal line and
      midfield of its side. */
  lemma SidePosInRange(y: int)
    requires -50 <= y <= 50
    ensures var r := MakeYardline(Some(y));
            r.sidePos.Some? && 0 <= r.sidePos.value <= 50
  {
  }

  /** Python's `str` of an integer: decimal digits, with a leading `-` when negative. */
  function IntToString(n: int): (s: string)
    ensures |s| > 0
    ensures s[0] == '-' <==> n < 0
    ensures forall i :: 0 <= i < |s| ==> s[i] == '-' || '0' <= s[i] <= '9'
  {
    if n < 0 then "-" + NatToString(-n) else NatToString(n)
  }

  /** The decimal digits of a natural number, most significant first. */
  function NatToString(n: nat): (s: string)
    ensures |s| > 0 && forall i :: 0 <= i < |s| ==> '0' <= s[i] <= '9'
    decreases n
  {
    var d := ['0' + (n % 10) as char];
    if n < 10 then d else NatToString(n / 10) + d
  }

  /** The numeric value of a string of decimal digits. */
  function DigitsValue(s: string): int
    requires forall i :: 0 <= i < |s| ==> '0' <= s[i] <= '9'
  {
    if s == [] then 0 else 10 * DigitsValue(s[..|s| - 1]) + (s[|s| - 1] - '0') as int
  }

  /** The digits written for a natural number read back as that number. */
  lemma {:induction false} NatToStringRoundTrip(n: nat)
    ensures DigitsValue(NatToString(n)) == n
    decreases n
  {
    var s := NatToString(n);
    if n >= 10 {
      NatToStringRoundTrip(n / 10);
      assert s[..|s| - 1] == NatToString(n / 10);
    }
  }

  /** `Yardline.__repr__`: `MIDFIELD` at 0, otherwise the side and the distance, with
      Python's `None` for an absent field. */
  function Render(y: Yardline): (s: string)
  {
    if y.yardInt == Some(0) then "MIDFIELD"
    else
      (match y.side case None => "None" case Some(Own) => "OWN" case Some(Opp) => "OPP")
      + " " +
      (match y.sidePos case None => "None" case Some(p) => IntToString(p))
  }

  /** Only the midfield position renders as `MIDFIELD`; a known position renders as its
      side followed by its distance. */
  lemma RenderMidfield(y: Option<int>)
    ensures Render(MakeYardline(y)) == "MIDFIELD" <==> y == Some(0)
    ensures y.Some? && y.value < 0 ==> Render(MakeYardline(y)) == "OWN " + IntToString(50 + y.value)
    ensures y.Some? && y.value > 0 ==> Render(MakeYardline(y)) == "OPP " + IntToString(50 - y.value)
  {
    var s := Render(MakeYardline(y));
    if y != Some(0) {
      assert s[0] != 'M';
    }
  }
}
