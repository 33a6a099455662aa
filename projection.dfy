/**
 * The per-asset encodings of the charts (app.py:131, 151, 169): the bar
 * colour by the sign of the 24h change and the scatter marker size.
 */
module Projection {
  import opened Common

  datatype Colour = Green | Red

  /** `'green' if x >= 0 else 'red'` (app.py:131, 151). */
  function BarColour(change: real): Colour
  {
    if change >= 0.0 then Green else Red
  }

  /** The colour column of both bar charts, one entry per asset in order. */
  function BarColours(coins: seq<Coin>): (cs: seq<Colour>)
    ensures |cs| == |coins|
    ensures forall i :: 0 <= i < |coins| ==> (cs[i] == Green <==> coins[i].change24h >= 0.0)
    ensures forall i :: 0 <= i < |coins| ==> (cs[i] == Red <==> coins[i].change24h < 0.0)
  {
    if coins == [] then []
    else [BarColour(coins[0].change24h)] + BarColours(coins[1..])
  }

  const MinMarker: real := 5.0
  const MaxMarker: real := 50.0

  function Abs(x: real): real
  {
    if x < 0.0 then -x else x
  }

  /** `(abs(x) * 2).clip(lower=5, upper=50)` (app.py:169). */
  function MarkerSize(change: real): (s: real)
    ensures MinMarker <= s <= MaxMarker
    ensures MinMarker <= 2.0 * Abs(change) <= MaxMarker ==> s == 2.0 * Abs(change)
    ensures 2.0 * Abs(change) < MinMarker ==> s == MinMarker
    ensures 2.0 * Abs(change) > MaxMarker ==> s == MaxMarker
  {
    var raw := 2.0 * Abs(change);
    if raw < MinMarker then MinMarker
    else if raw > MaxMarker then MaxMarker
    else raw
  }

  /** The marker-size column of the scatter plot, one entry per asset in order. */
  function MarkerSizes(coins: seq<Coin>): (ss: seq<real>)
    ensures |ss| == |coins|
    ensures forall i :: 0 <= i < |coins| ==> ss[i] == MarkerSize(coins[i].change24h)
    ensures forall i :: 0 <= i < |ss| ==> MinMarker <= ss[i] <= MaxMarker
  {
    if coins == [] then []
    else [MarkerSize(coins[0].change24h)] + MarkerSizes(coins[1..])
  }

  /** Clipping picks the size in [5, 50] nearest to twice the move. */
  lemma MarkerSizeIsNearest(change: real, y: real)
    requires MinMarker <= y <= MaxMarker
    ensures Abs(MarkerSize(change) - 2.0 * Abs(change)) <= Abs(y - 2.0 * Abs(change))
  {
  }

  /** A larger move, up or down, never gets a smaller marker. */
  lemma MarkerSizeMonotone(p: real, q: real)
    requires Abs(p) <= Abs(q)
    ensures MarkerSize(p) <= MarkerSize(q)
  {
  }

  /** Gains and losses of the same size get the same marker. */
  lemma MarkerSizeSymmetric(p: real)
    ensures MarkerSize(-p) == MarkerSize(p)
  {
  }
}
