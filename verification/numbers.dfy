/** Floating-point cells, seen only as far as the modelled code looks at them. */
module Numbers {
  import opened Wrappers

  /** A float64 cell: either NaN or some other value. Only NaN-ness is ever
      inspected by the modelled code, so the payload is an exact real. */
  datatype Num = NaN | Val(v: real)

  predicate HasNaN(xs: seq<Num>) {
    exists k :: 0 <= k < |xs| && xs[k].NaN?
  }

  /** Conversion of a float to an integer, rounding toward zero (C-style cast,
      which is what `astype(int)` does). */
  function Trunc(x: real): (r: int)
    ensures 0.0 <= x ==> 0 <= r && r as real <= x < r as real + 1.0
    ensures x < 0.0 ==> r <= 0 && r as real - 1.0 < x <= r as real
  {
    if x >= 0.0 then x.Floor else -((-x).Floor)
  }

  /** `astype(int)` on a column: fails when a NaN cell cannot be converted. */
  function AsInt(cells: seq<Num>): (r: Option<seq<int>>)
    ensures r.None? <==> HasNaN(cells)
    ensures r.Some? ==> |r.value| == |cells|
    ensures r.Some? ==> forall k :: 0 <= k < |cells| ==> r.value[k] == Trunc(cells[k].v)
  {
    if |cells| == 0 then Some([])
    else if cells[0].NaN? then None
    else
      match AsInt(cells[1..])
      case None =>
        assert HasNaN(cells) by {
          var k :| 0 <= k < |cells[1..]| && cells[1..][k].NaN?;
          assert cells[k + 1].NaN?;
        }
        None
      case Some(rest) => Some([Trunc(cells[0].v)] + rest)
  }
}
