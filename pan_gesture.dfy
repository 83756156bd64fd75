/**
 * What the two dismiss-transition handlers have in common: CoreGraphics
 * points, sizes and rectangles over the reals, the clamp that turns a pan's
 * movement into a transition progress, the four per-direction progress
 * measures, and the state machine that a pan gesture drives on the
 * percent-driven interactor (`hasStarted`, `shouldFinish`).
 */
module PanGesture {

  /** A `CGPoint`, also used for a pan's translation. */
  datatype Vector = Vector(x: real, y: real)
  /** A `CGSize`. */
  datatype Size = Size(width: real, height: real)
  /** A `CGRect`. */
  datatype Rect = Rect(origin: Vector, size: Size)

  /** The states a `UIPanGestureRecognizer` reports. */
  datatype GestureState = Possible | Began | Changed | Ended | Cancelled | Failed

  /** What the handler asks of UIKit: `dismiss(animated:)` and the interactor's update/finish/cancel. */
  datatype Effect = RequestDismiss | Update(progress: real) | Finish | Cancel

  /** One callback of the pan recognizer: its state and the progress measured for it. */
  datatype PanEvent = PanEvent(state: GestureState, progress: real)

  /** The interactor's two flags. */
  datatype Interaction = Interaction(hasStarted: bool, shouldFinish: bool)

  /** `percentThreshold`: the progress beyond which a released pan dismisses. */
  const PercentThreshold: real := 0.3
  /** `kDefaultAnimationDuration`, in seconds. */
  const DefaultAnimationDuration: real := 0.6

  function Abs(r: real): (a: real)
    ensures a >= 0.0 && (a == r || a == -r)
  {
    if r < 0.0 then -r else r
  }

  function Dot(a: Vector, b: Vector): real {
    a.x * b.x + a.y * b.y
  }

  function Negate(a: Vector): Vector {
    Vector(-a.x, -a.y)
  }

  /** One of the four unit steps along an axis: right, left, down or up. */
  predicate AxisUnit(h: Vector) {
    h in {Vector(1.0, 0.0), Vector(-1.0, 0.0), Vector(0.0, 1.0), Vector(0.0, -1.0)}
  }

  /** The point one screen away along `heading`. */
  function Across(heading: Vector, screen: Size): Vector {
    Vector(heading.x * screen.width, heading.y * screen.height)
  }

  /** How far a view of the given size reaches along an axis. */
  function Extent(heading: Vector, bounds: Size): real {
    Abs(heading.x) * bounds.width + Abs(heading.y) * bounds.height
  }

  /** The two rectangles share interior points. */
  predicate Overlap(a: Rect, b: Rect) {
    && a.origin.x < b.origin.x + b.size.width && b.origin.x < a.origin.x + a.size.width
    && a.origin.y < b.origin.y + b.size.height && b.origin.y < a.origin.y + a.size.height
  }

  /** The screen's own frame, `CGRect(origin: .zero, size: screen)`. */
  function OnScreen(screen: Size): Rect {
    Rect(Vector(0.0, 0.0), screen)
  }

  /**
   * A screen-sized frame moved one screen along an axis lies wholly off the
   * screen, edge to edge with it.
   */
  lemma AcrossIsOffScreen(heading: Vector, screen: Size)
    requires AxisUnit(heading) && screen.width > 0.0 && screen.height > 0.0
    ensures !Overlap(Rect(Across(heading, screen), screen), OnScreen(screen))
  {
  }

  /** `progressMovement`: the movement clamped to [0, 1]. */
  function ProgressMovement(movement: real): (p: real)
    ensures 0.0 <= p <= 1.0
    ensures 0.0 <= movement <= 1.0 ==> p == movement
    ensures movement < 0.0 ==> p == 0.0
    ensures movement > 1.0 ==> p == 1.0
  {
    if movement < 0.0 then 0.0 else if movement > 1.0 then 1.0 else movement
  }

  /** The clamp never reverses the order of two movements, and clamping twice is clamping once. */
  lemma ProgressMovementMonotone(a: real, b: real)
    requires a <= b
    ensures ProgressMovement(a) <= ProgressMovement(b)
    ensures ProgressMovement(ProgressMovement(a)) == ProgressMovement(a)
  {
  }

  lemma QuotientSign(a: real, d: real)
    requires d > 0.0
    ensures a / d > 0.0 <==> a > 0.0
    ensures a / d < 0.0 <==> a < 0.0
    ensures a / d >= 1.0 <==> a >= d
    ensures a / d <= -1.0 <==> a <= -d
    ensures (-a) / d == -(a / d)
  {
    var q := a / d;
    assert a == q * d;
    assert (q - 1.0) * d == a - d;
    assert (q + 1.0) * d == a + d;
    if q >= 1.0 { assert (q - 1.0) * d >= 0.0; }
    if a >= d { assert (q - 1.0) * d >= 0.0; }
    if q <= -1.0 { assert (q + 1.0) * d <= 0.0; }
    if a <= -d { assert (q + 1.0) * d <= 0.0; }
  }

  /** `topToBottomProgress`: the downward translation as a share of the height. */
  function TopToBottomProgress(t: Vector, bounds: Size): (p: real)
    requires bounds.height > 0.0
    ensures 0.0 <= p <= 1.0
    ensures p > 0.0 <==> t.y > 0.0
    ensures p == 1.0 <==> t.y >= bounds.height
    ensures 0.0 <= t.y <= bounds.height ==> p == t.y / bounds.height
  {
    QuotientSign(t.y, bounds.height);
    ProgressMovement(t.y / bounds.height)
  }

  /** `bottomToTopProgress`: nothing for a downward or still pan, else the upward share of the height. */
  function BottomToTopProgress(t: Vector, bounds: Size): (p: real)
    requires bounds.height > 0.0
    ensures 0.0 <= p <= 1.0
    ensures p > 0.0 <==> t.y < 0.0
    ensures p == 1.0 <==> t.y <= -bounds.height
    ensures -bounds.height <= t.y <= 0.0 ==> p == -t.y / bounds.height
  {
    QuotientSign(t.y, bounds.height);
    var movement := t.y / bounds.height;
    if movement >= 0.0 then 0.0 else ProgressMovement(Abs(movement))
  }

  /** `leftToRightProgress`: the rightward translation as a share of the width. */
  function LeftToRightProgress(t: Vector, bounds: Size): (p: real)
    requires bounds.width > 0.0
    ensures 0.0 <= p <= 1.0
    ensures p > 0.0 <==> t.x > 0.0
    ensures p == 1.0 <==> t.x >= bounds.width
    ensures 0.0 <= t.x <= bounds.width ==> p == t.x / bounds.width
  {
    QuotientSign(t.x, bounds.width);
    ProgressMovement(t.x / bounds.width)
  }

  /** `rightToLeftProgress`: nothing for a rightward or still pan, else the leftward share of the width. */
  function RightToLeftProgress(t: Vector, bounds: Size): (p: real)
    requires bounds.width > 0.0
    ensures 0.0 <= p <= 1.0
    ensures p > 0.0 <==> t.x < 0.0
    ensures p == 1.0 <==> t.x <= -bounds.width
    ensures -bounds.width <= t.x <= 0.0 ==> p == -t.x / bounds.width
  {
    QuotientSign(t.x, bounds.width);
    var movement := t.x / bounds.width;
    if movement >= 0.0 then 0.0 else ProgressMovement(Abs(movement))
  }

  /**
   * A measure that is the clamped share `a / d` of a pan's movement `a`
   * along an extent `d` passes the threshold exactly when the movement
   * passes that share of the extent.
   */
  lemma ClampedShareThreshold(p: real, a: real, d: real)
    requires d > 0.0 && 0.0 <= p <= 1.0
    requires p > 0.0 <==> a > 0.0
    requires p == 1.0 <==> a >= d
    requires 0.0 <= a <= d ==> p == a / d
    ensures p > PercentThreshold <==> a > PercentThreshold * d
  {
    if 0.0 <= a <= d {
      assert a == p * d;
      assert (p - PercentThreshold) * d == a - PercentThreshold * d;
      if p > PercentThreshold { assert (p - PercentThreshold) * d > 0.0; }
      if a > PercentThreshold * d { assert (p - PercentThreshold) * d > 0.0; }
    }
  }

  /**
   * The upward and leftward measures are the downward and rightward ones of
   * the mirrored pan: the code that tests the sign first and then takes the
   * absolute value computes the same clamp.
   */
  lemma MirroredProgress(t: Vector, bounds: Size)
    requires bounds.width > 0.0 && bounds.height > 0.0
    ensures BottomToTopProgress(t, bounds) == TopToBottomProgress(Vector(t.x, -t.y), bounds)
    ensures RightToLeftProgress(t, bounds) == LeftToRightProgress(Vector(-t.x, t.y), bounds)
  {
    QuotientSign(t.y, bounds.height);
    QuotientSign(t.x, bounds.width);
  }

  /** One call of `handler(_:_:)` once its view-controller guard has passed. */
  function Step(s: Interaction, e: PanEvent): (r: (Interaction, seq<Effect>))
    ensures e.state == Began ==> r.0.hasStarted && r.0.shouldFinish == s.shouldFinish
    ensures e.state == Changed ==>
      r.0.hasStarted == s.hasStarted && (r.0.shouldFinish <==> e.progress > PercentThreshold)
    ensures e.state in {Cancelled, Ended} ==> !r.0.hasStarted && r.0.shouldFinish == s.shouldFinish
    ensures e.state == Began ==> r.1 == [RequestDismiss]
    ensures e.state == Changed ==> r.1 == [Update(e.progress)]
    ensures e.state == Cancelled ==> r.1 == [Cancel]
    ensures e.state == Ended ==> r.1 == [if s.shouldFinish then Finish else Cancel]
    ensures e.state !in {Began, Changed, Cancelled, Ended} ==> r == (s, [])
    ensures |r.1| <= 1
  {
    match e.state
    case Began => (s.(hasStarted := true), [RequestDismiss])
    case Changed => (s.(shouldFinish := e.progress > PercentThreshold), [Update(e.progress)])
    case Cancelled => (s.(hasStarted := false), [Cancel])
    case Ended => (s.(hasStarted := false), [if s.shouldFinish then Finish else Cancel])
    case _ => (s, [])
  }

  /** The interactor's flags and the effects after a series of callbacks. */
  function Run(s: Interaction, events: seq<PanEvent>): (Interaction, seq<Effect>)
    decreases |events|
  {
    if events == [] then (s, [])
    else
      var first := Step(s, events[0]);
      var rest := Run(first.0, events[1..]);
      (rest.0, first.1 + rest.1)
  }

  /** Running two series one after the other is running their concatenation. */
  lemma {:induction false} RunAppend(s: Interaction, a: seq<PanEvent>, b: seq<PanEvent>)
    ensures Run(s, a + b) == (Run(Run(s, a).0, b).0, Run(s, a).1 + Run(Run(s, a).0, b).1)
    decreases |a|
  {
    if a == [] {
      assert a + b == b;
      assert Run(s, a) == (s, []);
      assert [] + Run(s, b).1 == Run(s, b).1;
    } else {
      var first := Step(s, a[0]);
      assert (a + b)[0] == a[0];
      assert (a + b)[1..] == a[1..] + b;
      RunAppend(first.0, a[1..], b);
      var mid := Run(first.0, a[1..]);
      assert Run(s, a) == (mid.0, first.1 + mid.1);
      var last := Run(mid.0, b);
      assert Run(s, a + b) == (last.0, first.1 + (mid.1 + last.1));
      assert first.1 + (mid.1 + last.1) == (first.1 + mid.1) + last.1;
    }
  }

  /** The callbacks of a pan that only moved, with the given progress values. */
  function Moves(progress: seq<real>): (events: seq<PanEvent>)
    ensures |events| == |progress|
    ensures forall k :: 0 <= k < |progress| ==> events[k] == PanEvent(Changed, progress[k])
  {
    seq(|progress|, k requires 0 <= k < |progress| => PanEvent(Changed, progress[k]))
  }

  /** The `update(_:)` calls such a series makes. */
  function Updates(progress: seq<real>): (effects: seq<Effect>)
    ensures |effects| == |progress|
    ensures forall k :: 0 <= k < |progress| ==> effects[k] == Update(progress[k])
  {
    seq(|progress|, k requires 0 <= k < |progress| => Update(progress[k]))
  }

  /**
   * A series of moves never touches `hasStarted`, reports every progress
   * value to the interactor in order, and leaves `shouldFinish` telling
   * whether the last move was beyond the threshold.
   */
  lemma {:induction false} RunMoves(s: Interaction, progress: seq<real>)
    ensures Run(s, Moves(progress)).1 == Updates(progress)
    ensures Run(s, Moves(progress)).0.hasStarted == s.hasStarted
    ensures Run(s, Moves(progress)).0.shouldFinish ==
      if progress == [] then s.shouldFinish else progress[|progress| - 1] > PercentThreshold
    decreases |progress|
  {
    if progress != [] {
      var s1 := Step(s, PanEvent(Changed, progress[0])).0;
      assert Moves(progress)[0] == PanEvent(Changed, progress[0]);
      assert Moves(progress)[1..] == Moves(progress[1..]);
      RunMoves(s1, progress[1..]);
      assert Updates(progress) == [Update(progress[0])] + Updates(progress[1..]);
    }
  }

  /**
   * A whole pan, from `.began` through at least one `.changed` to `.ended`:
   * it asks for the dismissal once, reports each move, and then finishes the
   * transition exactly when the last move was beyond 0.3 and cancels it
   * otherwise; `hasStarted` is false afterwards.
   */
  lemma CompletedPan(s: Interaction, start: real, progress: seq<real>, stop: real)
    requires progress != []
    ensures var r := Run(s, [PanEvent(Began, start)] + Moves(progress) + [PanEvent(Ended, stop)]);
      && !r.0.hasStarted
      && r.1 == [RequestDismiss] + Updates(progress)
                + [if progress[|progress| - 1] > PercentThreshold then Finish else Cancel]
  {
    var began := Step(s, PanEvent(Began, start)).0;
    RunAppend(s, [PanEvent(Began, start)], Moves(progress));
    RunMoves(began, progress);
    RunAppend(s, [PanEvent(Began, start)] + Moves(progress), [PanEvent(Ended, stop)]);
  }

  /**
   * A pan that is cancelled never finishes the transition, and hands
   * `hasStarted` back as false.
   */
  lemma CancelledPan(s: Interaction, start: real, progress: seq<real>, stop: real)
    ensures var r := Run(s, [PanEvent(Began, start)] + Moves(progress) + [PanEvent(Cancelled, stop)]);
      && !r.0.hasStarted
      && r.1 == [RequestDismiss] + Updates(progress) + [Cancel]
      && Finish !in r.1
  {
    var began := Step(s, PanEvent(Began, start)).0;
    RunAppend(s, [PanEvent(Began, start)], Moves(progress));
    RunMoves(began, progress);
    RunAppend(s, [PanEvent(Began, start)] + Moves(progress), [PanEvent(Cancelled, stop)]);
    var r := Run(s, [PanEvent(Began, start)] + Moves(progress) + [PanEvent(Cancelled, stop)]);
    assert forall k :: 0 <= k < |r.1| ==> r.1[k] != Finish by {
      forall k | 0 <= k < |r.1| ensures r.1[k] != Finish {
        if 1 <= k <= |progress| {
          assert r.1[k] == Updates(progress)[k - 1];
        }
      }
    }
  }

  /**
   * `.began` does not reset `shouldFinish`: a pan that begins and ends with
   * no move in between finishes exactly when the flag was left set by the
   * pan before it.
   */
  lemma PanWithoutMoves(s: Interaction, start: real, stop: real)
    ensures Run(s, [PanEvent(Began, start), PanEvent(Ended, stop)]).1 ==
      [RequestDismiss, if s.shouldFinish then Finish else Cancel]
  {
    var events := [PanEvent(Began, start), PanEvent(Ended, stop)];
    var began := Step(s, events[0]);
    assert events[1..] == [PanEvent(Ended, stop)];
    assert events[1..][1..] == [];
    var ended := Step(began.0, events[1]);
    assert Run(began.0, events[1..]) == (ended.0, ended.1 + []);
    assert Run(s, events).1 == began.1 + (ended.1 + []);
  }

  /** `UIViewControllerGestureDismissInteractor`: the percent-driven transition's two flags. */
  class Interactor {
    var hasStarted: bool
    var shouldFinish: bool

    constructor ()
      ensures !hasStarted && !shouldFinish
    {
      hasStarted := false;
      shouldFinish := false;
    }

    function State(): Interaction
      reads this
    {
      Interaction(hasStarted, shouldFinish)
    }
  }

  /**
   * The `switch sender.state` of `handler(_:_:)`: updates the interactor's
   * flags in place and returns the calls it makes.
   */
  method Drive(interactor: Interactor, e: PanEvent) returns (effects: seq<Effect>)
    modifies interactor
    ensures (interactor.State(), effects) == Step(old(interactor.State()), e)
  {
    match e.state
    case Began =>
      interactor.hasStarted := true;
      effects := [RequestDismiss];
    case Changed =>
      interactor.shouldFinish := e.progress > PercentThreshold;
      effects := [Update(e.progress)];
    case Cancelled =>
      interactor.hasStarted := false;
      effects := [Cancel];
    case Ended =>
      interactor.hasStarted := false;
      effects := [if interactor.shouldFinish then Finish else Cancel];
    case _ =>
      effects := [];
  }
}
