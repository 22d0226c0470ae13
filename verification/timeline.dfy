/** The scrub bar (`Timeline`): a two-state machine on `isScrubbing` that turns
    the pointer's x coordinate and the track's bounding box into seek
    fractions handed to the player's `seekVideo` callback. */
module Timeline {
  import opened JsText

  /** The horizontal extent of the track's bounding client rectangle. */
  datatype Track = Track(left: real, right: real)
  {
    predicate HasWidth() { left < right }
    function Width(): real { right - left }
  }

  function Max(a: real, b: real): real { if a >= b then a else b }
  function Min(a: real, b: real): real { if a <= b then a else b }

  /** Dividing a non-negative offset by a positive width. */
  lemma {:induction false} Quotient(a: real, w: real)
    requires a >= 0.0 && w > 0.0
    ensures a / w * w == a
    ensures a / w >= 0.0
    ensures a <= w <==> a / w <= 1.0
  {
  }

  /** The fraction computed on mousedown: clamped below at 0 only. */
  function DownFraction(x: real, t: Track): (p: real)
    requires t.HasWidth()
    ensures p >= 0.0
    ensures x <= t.left ==> p == 0.0
    ensures x <= t.right <==> p <= 1.0
    ensures t.left <= x ==> t.left + p * t.Width() == x
  {
    Quotient(Max(0.0, x - t.left), t.Width());
    Max(0.0, x - t.left) / t.Width()
  }

  /** The fraction computed on mousemove: clamped to [0, 1]. */
  function MoveFraction(x: real, t: Track): (p: real)
    requires t.HasWidth()
    ensures 0.0 <= p <= 1.0
    ensures p == Min(DownFraction(x, t), 1.0)
    ensures t.left <= x <= t.right ==> t.left + p * t.Width() == x
    ensures x >= t.right ==> p == 1.0
  {
    Quotient(Max(0.0, x - t.left), t.Width());
    Min(Max(0.0, x - t.left) / t.Width(), 1.0)
  }

  /** Moving the pointer right never moves the seek position left. */
  lemma {:induction false} MoveFractionMonotone(x1: real, x2: real, t: Track)
    requires t.HasWidth() && x1 <= x2
    ensures MoveFraction(x1, t) <= MoveFraction(x2, t)
  {
    var a1, a2 := Max(0.0, x1 - t.left), Max(0.0, x2 - t.left);
    assert a1 <= a2;
    assert a2 / t.Width() - a1 / t.Width() == (a2 - a1) / t.Width();
  }

  /** The pointer events the scrub bar listens to (mousedown on the track,
      mousemove and mouseup anywhere in the document). */
  datatype MouseEvent = MouseDown(x: real, track: Track) | MouseMove(x: real, track: Track) | MouseUp
  {
    predicate Measurable() { !MouseUp? ==> track.HasWidth() }
  }

  /** What one event does: the new `isScrubbing` and the seek it issues, if any. */
  datatype Outcome = Outcome(scrubbing: bool, seek: Option<real>)

  /** The seeks one outcome issues: none or one. */
  function Issued(o: Outcome): seq<real>
  {
    if o.seek.Some? then [o.seek.value] else []
  }

  function Step(scrubbing: bool, e: MouseEvent): (o: Outcome)
    requires e.Measurable()
    ensures o.scrubbing <==> e.MouseDown? || (scrubbing && e.MouseMove?)
    ensures o.seek.Some? <==> e.MouseDown? || (scrubbing && e.MouseMove?)
    ensures o.seek.Some? ==> o.seek.value >= 0.0
    ensures e.MouseMove? && o.seek.Some? ==> o.seek.value <= 1.0
  {
    match e
    case MouseDown(x, t) => Outcome(true, Some(DownFraction(x, t)))
    case MouseMove(x, t) => if scrubbing then Outcome(true, Some(MoveFraction(x, t))) else Outcome(false, None)
    case MouseUp => Outcome(false, None)
  }

  /** Every mousedown and mousemove in the run comes with a measurable track. */
  predicate AllMeasurable(es: seq<MouseEvent>)
    decreases |es|
  {
    es == [] || (es[0].Measurable() && AllMeasurable(es[1..]))
  }

  /** A run of events from a starting state: the final state and every seek
      issued, in order. */
  function Run(scrubbing: bool, es: seq<MouseEvent>): (bool, seq<real>)
    requires AllMeasurable(es)
    decreases |es|
  {
    if es == [] then (scrubbing, [])
    else
      var o := Step(scrubbing, es[0]);
      var rest := Run(o.scrubbing, es[1..]);
      (rest.0, Issued(o) + rest.1)
  }

  function DownCount(es: seq<MouseEvent>): nat
  {
    if es == [] then 0 else (if es[0].MouseDown? then 1 else 0) + DownCount(es[1..])
  }

  /** No seek is ever negative, and each event issues at most one. */
  lemma {:induction false} RunSeeksNonNegative(scrubbing: bool, es: seq<MouseEvent>)
    requires AllMeasurable(es)
    ensures forall i :: 0 <= i < |Run(scrubbing, es).1| ==> Run(scrubbing, es).1[i] >= 0.0
    ensures DownCount(es) <= |Run(scrubbing, es).1| <= |es|
    decreases |es|
  {
    if es != [] {
      RunSeeksNonNegative(Step(scrubbing, es[0]).scrubbing, es[1..]);
    }
  }

  /** While idle, pointer moves issue no seek and leave the bar idle. */
  lemma {:induction false} IdleMovesDoNothing(es: seq<MouseEvent>)
    requires AllMeasurable(es)
    requires forall i :: 0 <= i < |es| ==> es[i].MouseMove?
    ensures Run(false, es) == (false, [])
  {
    if es != [] {
      IdleMovesDoNothing(es[1..]);
      assert Step(false, es[0]) == Outcome(false, None);
      assert Run(false, es).1 == [] + Run(false, es[1..]).1 == [];
    }
  }

  /** A run that ends with mouseup ends idle, whatever came before. */
  lemma {:induction false} MouseUpEndsIdle(scrubbing: bool, es: seq<MouseEvent>)
    requires AllMeasurable(es) && es != [] && es[|es| - 1] == MouseUp
    ensures !Run(scrubbing, es).0
    decreases |es|
  {
    if |es| > 1 {
      MouseUpEndsIdle(Step(scrubbing, es[0]).scrubbing, es[1..]);
    }
  }

  /** When every mousedown lands on the track, every seek is in [0, 1]. */
  lemma {:induction false} SeeksWithinTrack(scrubbing: bool, es: seq<MouseEvent>)
    requires AllMeasurable(es)
    requires forall i :: 0 <= i < |es| && es[i].MouseDown? ==> es[i].x <= es[i].track.right
    ensures forall i :: 0 <= i < |Run(scrubbing, es).1| ==> 0.0 <= Run(scrubbing, es).1[i] <= 1.0
    decreases |es|
  {
    if es != [] {
      SeeksWithinTrack(Step(scrubbing, es[0]).scrubbing, es[1..]);
    }
  }

  /** Press and release without moving: exactly one seek, and the bar is idle. */
  lemma ClickSeeksOnce(scrubbing: bool, x: real, t: Track)
    requires t.HasWidth()
    ensures Run(scrubbing, [MouseDown(x, t), MouseUp]) == (false, [DownFraction(x, t)])
  {
    var es := [MouseDown(x, t), MouseUp];
    assert es[1..] == [MouseUp];
    assert es[1..][1..] == [];
    var empty: seq<real> := [];
    assert Run(true, es[1..]).1 == empty + empty == empty;
    assert Run(scrubbing, es).1 == [DownFraction(x, t)] + empty == [DownFraction(x, t)];
    assert Run(scrubbing, es).0 == Run(true, es[1..]).0 == Run(false, es[1..][1..]).0 == false;
  }

  lemma {:induction false} AllMeasurableAppend(es: seq<MouseEvent>, e: MouseEvent)
    requires AllMeasurable(es) && e.Measurable()
    ensures AllMeasurable(es + [e])
    decreases |es|
  {
    if es == [] {
      assert es + [e] == [e] && [e][1..] == [];
    } else {
      assert (es + [e])[1..] == es[1..] + [e];
      AllMeasurableAppend(es[1..], e);
    }
  }

  /** Handling one more event continues the run from where it stood. */
  lemma {:induction false} RunAppend(scrubbing: bool, es: seq<MouseEvent>, e: MouseEvent)
    requires AllMeasurable(es) && e.Measurable()
    ensures AllMeasurable(es + [e])
    ensures var before := Run(scrubbing, es);
            var o := Step(before.0, e);
            Run(scrubbing, es + [e]) == (o.scrubbing, before.1 + Issued(o))
    decreases |es|
  {
    AllMeasurableAppend(es, e);
    if es == [] {
      assert es + [e] == [e];
      var o := Step(scrubbing, e);
      var empty: seq<real> := [];
      assert [e][1..] == [];
      assert Run(scrubbing, [e]).1 == Issued(o) + empty == empty + Issued(o);
    } else {
      var o := Step(scrubbing, es[0]);
      var rest := Run(o.scrubbing, es[1..]);
      assert (es + [e])[1..] == es[1..] + [e];
      RunAppend(o.scrubbing, es[1..], e);
      var tail := Issued(Step(rest.0, e));
      assert Run(scrubbing, es + [e]).1 == Issued(o) + (rest.1 + tail);
      assert Issued(o) + (rest.1 + tail) == (Issued(o) + rest.1) + tail;
    }
  }

  /** The component: its `isScrubbing` state cell and the seeks it has handed
      to the `seekVideo` callback. The ghost `trace` is every pointer event
      handled so far; `Valid` says the state is the run of that trace. */
  class Scrubber {
    var isScrubbing: bool
    var seeks: seq<real>
    ghost var trace: seq<MouseEvent>

    ghost predicate Valid()
      reads this
    {
      AllMeasurable(trace) && (isScrubbing, seeks) == Run(false, trace)
    }

    constructor ()
      ensures Valid() && trace == []
      ensures !isScrubbing && seeks == []
    {
      isScrubbing := false;
      seeks := [];
      trace := [];
    }

    method MouseDownListener(x: real, t: Track)
      requires Valid() && t.HasWidth()
      modifies this
      ensures Valid() && trace == old(trace) + [MouseDown(x, t)]
      ensures isScrubbing
      ensures seeks == old(seeks) + [DownFraction(x, t)]
    {
      RunAppend(false, trace, MouseDown(x, t));
      isScrubbing := true;
      seeks := seeks + [DownFraction(x, t)];
      trace := trace + [MouseDown(x, t)];
    }

    method MouseMoveListener(x: real, t: Track)
      requires Valid() && t.HasWidth()
      modifies this
      ensures Valid() && trace == old(trace) + [MouseMove(x, t)]
      ensures isScrubbing == old(isScrubbing)
      ensures seeks == old(seeks) + if old(isScrubbing) then [MoveFraction(x, t)] else []
    {
      RunAppend(false, trace, MouseMove(x, t));
      trace := trace + [MouseMove(x, t)];
      if !isScrubbing {
        assert seeks + Issued(Step(false, MouseMove(x, t))) == seeks + [] == seeks;
        return;
      }
      seeks := seeks + [MoveFraction(x, t)];
    }

    method MouseUpListener()
      requires Valid()
      modifies this
      ensures Valid() && trace == old(trace) + [MouseUp]
      ensures !isScrubbing && seeks == old(seeks)
    {
      RunAppend(false, trace, MouseUp);
      assert seeks + Issued(Step(isScrubbing, MouseUp)) == seeks + [] == seeks;
      isScrubbing := false;
      trace := trace + [MouseUp];
    }
  }

  /** Press and release on the track: the scrubber issues one seek and is idle. */
  method PressAndRelease(s: Scrubber, x: real, t: Track)
    requires s.Valid() && t.HasWidth()
    modifies s
    ensures s.Valid() && !s.isScrubbing
    ensures s.seeks == old(s.seeks) + [DownFraction(x, t)]
  {
    s.MouseDownListener(x, t);
    s.MouseUpListener();
  }
}
