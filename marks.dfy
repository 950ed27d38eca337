/**
 * One cyclist record and the per-datum attribute lambdas of `update` in
 * src/index.js: the fill, radius and position of its circle and the fill,
 * position and text of its label. `anchor` is the Seconds of the first
 * record of the data array (data[0].Seconds), which every x position is
 * measured from.
 */
module Marks {
  import opened Scales

  /** A record of the fetched JSON array. */
  datatype Record = Record(
    name: string,
    nationality: string,
    year: int,
    time: string,
    place: int,
    doping: string,
    seconds: int)

  /** The attributes written on a circle: fill, r, cx, cy. */
  datatype MarkerAttrs = MarkerAttrs(fill: string, r: real, cx: real, cy: real)

  /** The attributes written on a label: fill, x, dy and its text. */
  datatype LabelAttrs = LabelAttrs(fill: string, x: real, dy: real, text: string)

  /** The fill of a record's circle and label. */
  function FillOf(d: Record): (c: string)
    ensures c == "red" <==> |d.doping| > 0
    ensures c == "green" <==> |d.doping| == 0
  {
    if |d.doping| > 0 then "red" else "green"
  }

  /** The circle attributes of a record (src/index.js:152-155). */
  function MarkerOf(d: Record, anchor: int): MarkerAttrs
  {
    MarkerAttrs(FillOf(d), 5.0, XScale((d.seconds - anchor) as real), YScale(d.place as real))
  }

  /** The label attributes of a record (src/index.js:161-164). */
  function LabelOf(d: Record, anchor: int): LabelAttrs
  {
    LabelAttrs(FillOf(d), XScale((d.seconds - anchor) as real) + 10.0, YScale(d.place as real) + 5.0, d.name)
  }

  /**
   * Every circle has radius 5, the allegation colour, and sits where the
   * scales put its time gap and its place: inverting the scales gives the
   * gap and the place back.
   */
  lemma MarkerPlacement(d: Record, anchor: int)
    ensures MarkerOf(d, anchor).r == 5.0
    ensures MarkerOf(d, anchor).fill == "red" <==> |d.doping| > 0
    ensures XInvert(MarkerOf(d, anchor).cx) == (d.seconds - anchor) as real
    ensures YInvert(MarkerOf(d, anchor).cy) == d.place as real
  {
    ScalesInvert((d.seconds - anchor) as real);
    ScalesInvert(d.place as real);
  }

  /** Slower records plot further left, higher places further down. */
  lemma MarkerOrder(d: Record, e: Record, anchor: int)
    ensures d.seconds < e.seconds <==> MarkerOf(d, anchor).cx > MarkerOf(e, anchor).cx
    ensures d.place < e.place <==> MarkerOf(d, anchor).cy < MarkerOf(e, anchor).cy
  {
    var gd, ge := (d.seconds - anchor) as real, (e.seconds - anchor) as real;
    var pd, pe := d.place as real, e.place as real;
    assert MarkerOf(d, anchor).cx == XScale(gd) && MarkerOf(e, anchor).cx == XScale(ge);
    assert MarkerOf(d, anchor).cy == YScale(pd) && MarkerOf(e, anchor).cy == YScale(pe);
    assert d.seconds < e.seconds <==> gd < ge;
    assert d.place < e.place <==> pd < pe;
    XScaleEndpointsAndOrder(gd, ge);
    YScaleEndpointsAndOrder(pd, pe);
  }

  /** A label sits 10 right of and 5 below its circle, in the same colour, showing the name. */
  lemma LabelBesideMarker(d: Record, anchor: int)
    ensures LabelOf(d, anchor).x == MarkerOf(d, anchor).cx + 10.0
    ensures LabelOf(d, anchor).dy == MarkerOf(d, anchor).cy + 5.0
    ensures LabelOf(d, anchor).fill == MarkerOf(d, anchor).fill
    ensures LabelOf(d, anchor).text == d.name
  {
  }

  /**
   * The first record's circle is at the right edge whatever its Seconds,
   * because its own Seconds is the anchor; a record faster than the first
   * one is drawn beyond the right edge.
   */
  lemma FirstRecordAtRightEdge(data: seq<Record>, i: nat)
    requires 0 < |data| && i < |data|
    ensures MarkerOf(data[0], data[0].seconds).cx == Width as real
    ensures data[i].seconds < data[0].seconds <==> MarkerOf(data[i], data[0].seconds).cx > Width as real
  {
    XScaleEndpointsAndOrder((data[i].seconds - data[0].seconds) as real, 0.0);
  }

  /** A two-record scenario: a clean leader and a suspended rider 40 s behind. */
  lemma TwoRecordScenario(a: Record, b: Record)
    requires a.place == 1 && a.seconds == 0 && a.doping == ""
    requires b.place == 2 && b.seconds == 40 && b.doping == "suspended"
    ensures MarkerOf(a, a.seconds) == MarkerAttrs("green", 5.0, XScale(0.0), YScale(1.0))
    ensures MarkerOf(b, a.seconds) == MarkerAttrs("red", 5.0, XScale(40.0), YScale(2.0))
    ensures MarkerOf(a, a.seconds).cx == 575.0 && MarkerOf(a, a.seconds).cy == 0.0
  {
    var ma, mb := MarkerOf(a, a.seconds), MarkerOf(b, a.seconds);
    assert ma.fill == "green" && mb.fill == "red";
    assert ma.cx == XScale((a.seconds - a.seconds) as real) && (a.seconds - a.seconds) as real == 0.0;
    assert ma.cy == YScale(a.place as real) && a.place as real == 1.0;
    assert mb.cx == XScale((b.seconds - a.seconds) as real) && (b.seconds - a.seconds) as real == 40.0;
    assert mb.cy == YScale(b.place as real) && b.place as real == 2.0;
    XScaleEndpointsAndOrder(0.0, 0.0);
    YScaleEndpointsAndOrder(1.0, 1.0);
  }
}
