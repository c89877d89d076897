/**
 * The text-size buttons (src/components/Header/Zoom.tsx): a click counter bounded to
 * three steps either way, applied to the root font size in steps of 5% and shown in
 * steps of 15%.
 */
module Zoom {

  const MaxZoom: int := 3
  const MinZoom: int := -3
  const BaseFontSize: int := 100

  predicate InRange(count: int) {
    MinZoom <= count <= MaxZoom
  }

  /** `handleZoomIn` as a transition of the counter. */
  function ZoomIn(count: int): (next: int)
    ensures InRange(count) ==> InRange(next)
    ensures next == count || next == count + 1
    ensures next == count + 1 <==> count < MaxZoom
  {
    if count < MaxZoom then count + 1 else count
  }

  /** `handleZoomOut` as a transition of the counter. */
  function ZoomOut(count: int): (next: int)
    ensures InRange(count) ==> InRange(next)
    ensures next == count || next == count - 1
    ensures next == count - 1 <==> count > MinZoom
  {
    if count > MinZoom then count - 1 else count
  }

  /** Zooming out undoes zooming in except at the top, and vice versa at the bottom. */
  lemma ZoomRoundTrips(count: int)
    requires InRange(count)
    ensures count < MaxZoom ==> ZoomOut(ZoomIn(count)) == count
    ensures count > MinZoom ==> ZoomIn(ZoomOut(count)) == count
  {
  }

  /** The percentage written to the root element's font size. */
  function AppliedFontSize(count: int): (percent: int)
    ensures InRange(count) ==> 85 <= percent <= 115
  {
    BaseFontSize + count * 5
  }

  /** The percentage displayed next to the buttons. */
  function DisplayedFontSize(count: int): (percent: int)
    ensures InRange(count) ==> 55 <= percent <= 145
    ensures percent == AppliedFontSize(count) <==> count == 0
  {
    BaseFontSize + count * 15
  }

  predicate ZoomInDisabled(count: int) {
    count >= MaxZoom
  }

  predicate ZoomOutDisabled(count: int) {
    count <= MinZoom
  }

  /** A disabled button is exactly one whose handler would change nothing. */
  lemma DisabledMeansNoEffect(count: int)
    ensures ZoomInDisabled(count) <==> ZoomIn(count) == count
    ensures ZoomOutDisabled(count) <==> ZoomOut(count) == count
  {
  }

  /** A sequence of clicks: `true` for +, `false` for -. */
  function Clicks(count: int, presses: seq<bool>): (final: int)
    decreases |presses|
  {
    if presses == [] then count
    else Clicks(if presses[0] then ZoomIn(count) else ZoomOut(count), presses[1..])
  }

  /** Whatever is clicked, a counter that starts in range stays in range. */
  lemma {:induction false} ClicksStayInRange(count: int, presses: seq<bool>)
    requires InRange(count)
    ensures InRange(Clicks(count, presses))
    decreases |presses|
  {
    if presses != [] {
      ClicksStayInRange(if presses[0] then ZoomIn(count) else ZoomOut(count), presses[1..]);
    }
  }

  function Repeat(press: bool, n: nat): (presses: seq<bool>)
    ensures |presses| == n
  {
    if n == 0 then [] else [press] + Repeat(press, n - 1)
  }

  /** From the start, n presses of + give min(n, 3). */
  lemma {:induction false} RepeatedZoomIn(count: int, n: nat)
    requires InRange(count)
    ensures Clicks(count, Repeat(true, n)) == if count + n < MaxZoom then count + n else MaxZoom
    decreases n
  {
    if n > 0 {
      var presses := Repeat(true, n);
      assert presses[0] && presses[1..] == Repeat(true, n - 1);
      RepeatedZoomIn(ZoomIn(count), n - 1);
    }
  }

  /** The component's counter; the effect that writes the root font size is not modelled. */
  class ZoomButtons {
    var zoomCount: int

    constructor ()
      ensures zoomCount == 0
    {
      zoomCount := 0;
    }

    method HandleZoomIn()
      modifies this
      ensures zoomCount == ZoomIn(old(zoomCount))
    {
      if zoomCount < 3 {
        zoomCount := zoomCount + 1;
      }
    }

    method HandleZoomOut()
      modifies this
      ensures zoomCount == ZoomOut(old(zoomCount))
    {
      if zoomCount > -3 {
        zoomCount := zoomCount - 1;
      }
    }
  }
}
