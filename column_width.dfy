/**
 * `detect_column_width`: the most common slot width (rounded to hundredths
 * of a point, slots of 30 points or less ignored), with the width seen first
 * winning a tie, and 124 points when no slot qualifies.
 */
module ColumnWidth {
  import opened LayoutTypes

  const DefaultColumnWidth: real := 124.0

  /** Python's `round(x)`: the nearest integer, halves to the even neighbour. */
  function RoundHalfEven(x: real): (r: int)
    ensures r as real - x <= 0.5 && x - r as real <= 0.5
    ensures r as real - x == 0.5 || x - r as real == 0.5 ==> r % 2 == 0
  {
    var f := x.Floor;
    var d := x - f as real;
    if d < 0.5 then f
    else if d > 0.5 then f + 1
    else if f % 2 == 0 then f else f + 1
  }

  /** `round(x, 2)`. */
  function Round2(x: real): real {
    RoundHalfEven(x * 100.0) as real / 100.0
  }

  /** `[round(slot.width_pt, 2) for slot in slots if slot.width_pt > 30]`. */
  function Widths(slots: seq<Slot>): (ws: seq<real>)
    ensures |ws| <= |slots|
    ensures forall w :: w in ws <==> exists i :: 0 <= i < |slots| && slots[i].width > 30.0 && w == Round2(slots[i].width)
  {
    if slots == [] then []
    else
      var rest := Widths(slots[1..]);
      assert forall i :: 0 < i < |slots| ==> slots[i] == slots[1..][i - 1];
      if slots[0].width > 30.0 then [Round2(slots[0].width)] + rest else rest
  }

  function Count(ws: seq<real>, w: real): nat {
    multiset(ws)[w]
  }

  /** Where `w` first occurs in `ws`. */
  function FirstIndex(ws: seq<real>, w: real): (i: nat)
    requires w in ws
    ensures i < |ws| && ws[i] == w
    ensures forall j :: 0 <= j < i ==> ws[j] != w
  {
    if ws[0] == w then 0 else FirstIndex(ws[1..], w) + 1
  }

  /**
   * The most common of the first `n` widths, the earliest first seen among
   * equally common ones, counting occurrences in all of `ws`.
   */
  function MostCommonIn(ws: seq<real>, n: nat): (r: real)
    requires 1 <= n <= |ws|
    ensures r in ws[..n]
    ensures forall j :: 0 <= j < n ==> Count(ws, ws[j]) <= Count(ws, r)
    ensures forall j :: 0 <= j < FirstIndex(ws, r) ==> Count(ws, ws[j]) < Count(ws, r)
  {
    if n == 1 then
      assert ws[..1] == [ws[0]];
      ws[0]
    else
      var best := MostCommonIn(ws, n - 1);
      var next := ws[n - 1];
      assert ws[..n] == ws[..n - 1] + [next];
      if Count(ws, next) > Count(ws, best) then next else best
  }

  /** `detect_column_width`. */
  function DetectColumnWidth(slots: seq<Slot>): (r: real)
    ensures Widths(slots) == [] ==> r == DefaultColumnWidth
    ensures Widths(slots) != [] ==> r in Widths(slots)
    ensures Widths(slots) != [] ==> forall w :: w in Widths(slots) ==> Count(Widths(slots), w) <= Count(Widths(slots), r)
  {
    var ws := Widths(slots);
    if ws == [] then DefaultColumnWidth
    else
      var r := MostCommonIn(ws, |ws|);
      assert ws[..|ws|] == ws;
      assert forall w :: w in ws ==> w == ws[FirstIndex(ws, w)];
      r
  }

  /** Among equally common widths the one that occurs first wins. */
  lemma FirstSeenWinsTie(slots: seq<Slot>, i: nat)
    requires i < |Widths(slots)|
    requires Count(Widths(slots), Widths(slots)[i]) == Count(Widths(slots), DetectColumnWidth(slots))
    ensures FirstIndex(Widths(slots), DetectColumnWidth(slots)) <= i
  {
    var ws := Widths(slots);
    assert ws[..|ws|] == ws;
  }

  /** A width is chosen only from slots wider than 30 points. */
  lemma DetectedWidthIsASlotWidth(slots: seq<Slot>)
    ensures DetectColumnWidth(slots) == DefaultColumnWidth ||
      exists i :: 0 <= i < |slots| && slots[i].width > 30.0 && DetectColumnWidth(slots) == Round2(slots[i].width)
  {
  }
}
