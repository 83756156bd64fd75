/**
 * `UIViewControllerBasicTransitioningHandler`: presents a view controller
 * sliding in from one side and, when `allowDismissWithGesture` is set, lets a
 * pan dismiss it towards the side it came from. The handler is the view
 * controller's transitioning delegate: it hands out the animators and, while
 * a pan is under way, the interactor.
 */
module BasicTransitioning {
  import opened Wrappers
  import opened PanGesture

  /** `UIViewControllerDismissGestureDirection`: where a dismissed view leaves to. */
  datatype DismissDirection = TopToBottom | LeftToRight | BottomToTop | RightToLeft

  /** `UIViewControllerPresentingDirection`: which way a presented view slides in. */
  datatype PresentingDirection = BottomToTop | LeftToRight | TopToBottom | RightToLeft

  /** `presentingDirection`. */
  function PresentingOf(d: DismissDirection): PresentingDirection {
    match d
    case TopToBottom => PresentingDirection.BottomToTop
    case LeftToRight => PresentingDirection.RightToLeft
    case RightToLeft => PresentingDirection.LeftToRight
    case _ => PresentingDirection.TopToBottom
  }

  /** `dismissingDirection`. */
  function DismissingOf(p: PresentingDirection): DismissDirection {
    match p
    case TopToBottom => DismissDirection.BottomToTop
    case LeftToRight => DismissDirection.RightToLeft
    case RightToLeft => DismissDirection.LeftToRight
    case _ => DismissDirection.TopToBottom
  }

  /** The way a dismissed view moves, as its name says: down, right, up or left. */
  function DismissHeading(d: DismissDirection): (h: Vector)
    ensures AxisUnit(h)
  {
    match d
    case TopToBottom => Vector(0.0, 1.0)
    case LeftToRight => Vector(1.0, 0.0)
    case BottomToTop => Vector(0.0, -1.0)
    case RightToLeft => Vector(-1.0, 0.0)
  }

  /** The way a presented view moves, as its name says. */
  function PresentingHeading(p: PresentingDirection): (h: Vector)
    ensures AxisUnit(h)
  {
    match p
    case BottomToTop => Vector(0.0, -1.0)
    case LeftToRight => Vector(1.0, 0.0)
    case TopToBottom => Vector(0.0, 1.0)
    case RightToLeft => Vector(-1.0, 0.0)
  }

  /**
   * The two mappings undo each other, so each is a bijection between the four
   * directions.
   */
  lemma DirectionsInverse()
    ensures forall d :: DismissingOf(PresentingOf(d)) == d
    ensures forall p :: PresentingOf(DismissingOf(p)) == p
    ensures forall d, e :: PresentingOf(d) == PresentingOf(e) ==> d == e
    ensures forall p, q :: DismissingOf(p) == DismissingOf(q) ==> p == q
  {
  }

  /** Each mapping turns a motion into the opposite motion: a view is dismissed back the way it came. */
  lemma DirectionsOpposite()
    ensures forall d :: PresentingHeading(PresentingOf(d)) == Negate(DismissHeading(d))
    ensures forall p :: DismissHeading(DismissingOf(p)) == Negate(PresentingHeading(p))
  {
    forall d ensures PresentingHeading(PresentingOf(d)) == Negate(DismissHeading(d)) {
      match d
      case TopToBottom =>
      case LeftToRight =>
      case BottomToTop =>
      case RightToLeft =>
    }
    forall p ensures DismissHeading(DismissingOf(p)) == Negate(PresentingHeading(p)) {
      match p
      case TopToBottom =>
      case LeftToRight =>
      case BottomToTop =>
      case RightToLeft =>
    }
  }

  /** `UIViewControllerPresentingAnimator` and its `initialFrame()`. */
  datatype PresentingAnimator = PresentingAnimator(direction: PresentingDirection, animationDuration: real) {
    function InitialFrame(screen: Size): Rect {
      var corner := match direction
        case TopToBottom => Vector(0.0, -screen.height)
        case LeftToRight => Vector(-screen.width, 0.0)
        case RightToLeft => Vector(screen.width, 0.0)
        case _ => Vector(0.0, screen.height);
      Rect(corner, screen)
    }

    /** Where `animateTransition` moves the presented view to. */
    function PresentedFrame(screen: Size): Rect {
      Rect(Vector(0.0, 0.0), screen)
    }
  }

  /** `UIViewControllerDismissAnimator` and its `finalFrame()`. */
  datatype DismissAnimator = DismissAnimator(direction: DismissDirection, animationDuration: real) {
    function FinalFrame(screen: Size): Rect {
      var corner := match direction
        case BottomToTop => Vector(0.0, -screen.height)
        case LeftToRight => Vector(screen.width, 0.0)
        case RightToLeft => Vector(-screen.width, 0.0)
        case _ => Vector(0.0, screen.height);
      Rect(corner, screen)
    }
  }

  /**
   * The presented view starts one screen behind its motion, off the screen,
   * and slides exactly one screen to the full-screen frame at (0, 0).
   */
  lemma PresentingFrames(a: PresentingAnimator, screen: Size)
    requires screen.width > 0.0 && screen.height > 0.0
    ensures a.InitialFrame(screen).size == screen && a.PresentedFrame(screen) == OnScreen(screen)
    ensures a.InitialFrame(screen).origin == Across(Negate(PresentingHeading(a.direction)), screen)
    ensures !Overlap(a.InitialFrame(screen), OnScreen(screen))
  {
    AcrossIsOffScreen(Negate(PresentingHeading(a.direction)), screen);
  }

  /** The dismissed view ends one screen along its motion, wholly off the screen. */
  lemma DismissFrames(a: DismissAnimator, screen: Size)
    requires screen.width > 0.0 && screen.height > 0.0
    ensures a.FinalFrame(screen).size == screen
    ensures a.FinalFrame(screen).origin == Across(DismissHeading(a.direction), screen)
    ensures !Overlap(a.FinalFrame(screen), OnScreen(screen))
  {
    AcrossIsOffScreen(DismissHeading(a.direction), screen);
  }

  /** The view leaves where it came in: the dismissal ends at the presentation's starting frame. */
  lemma LeavesWhereItCameIn(p: PresentingDirection, duration: real, screen: Size)
    ensures DismissAnimator(DismissingOf(p), duration).FinalFrame(screen) ==
            PresentingAnimator(p, duration).InitialFrame(screen)
  {
  }

  /** `progress(_:_:)`: measured for the way the view is dismissed, not the way it came. */
  function Progress(p: PresentingDirection, t: Vector, bounds: Size): (r: real)
    requires bounds.width > 0.0 && bounds.height > 0.0
    ensures 0.0 <= r <= 1.0
    ensures var h := DismissHeading(DismissingOf(p));
      0.0 <= Dot(t, h) <= Extent(h, bounds) ==> r == Dot(t, h) / Extent(h, bounds)
  {
    match DismissingOf(p)
    case LeftToRight => LeftToRightProgress(t, bounds)
    case BottomToTop => BottomToTopProgress(t, bounds)
    case RightToLeft => RightToLeftProgress(t, bounds)
    case _ => TopToBottomProgress(t, bounds)
  }

  /**
   * A pan makes progress exactly when it moves towards the side the view is
   * dismissed to, is the share of the view's extent moved that way, reaches 1
   * once it has moved the whole extent, and passes the 0.3 threshold exactly
   * when the pan has moved more than 30% of the extent.
   */
  lemma ProgressTowardsExit(p: PresentingDirection, t: Vector, bounds: Size)
    requires bounds.width > 0.0 && bounds.height > 0.0
    ensures var h := DismissHeading(DismissingOf(p)); var r := Progress(p, t, bounds);
      && (r > 0.0 <==> Dot(t, h) > 0.0)
      && (r == 1.0 <==> Dot(t, h) >= Extent(h, bounds))
      && (0.0 <= Dot(t, h) <= Extent(h, bounds) ==> r == Dot(t, h) / Extent(h, bounds))
      && (r > PercentThreshold <==> Dot(t, h) > PercentThreshold * Extent(h, bounds))
  {
    var h := DismissHeading(DismissingOf(p));
    ClampedShareThreshold(Progress(p, t, bounds), Dot(t, h), Extent(h, bounds));
  }

  /** The progress values that a series of pan translations is measured as. */
  function Measures(p: PresentingDirection, ts: seq<Vector>, bounds: Size): (r: seq<real>)
    requires bounds.width > 0.0 && bounds.height > 0.0
    ensures |r| == |ts|
    ensures forall k :: 0 <= k < |ts| ==> r[k] == Progress(p, ts[k], bounds)
  {
    seq(|ts|, k requires 0 <= k < |ts| => Progress(p, ts[k], bounds))
  }

  /**
   * A pan that begins, moves through the translations `ts` and is released
   * finishes the dismissal exactly when its last translation has carried
   * the view more than 30% of its extent towards the exit side, and cancels
   * it otherwise.
   */
  lemma ReleasedPastThresholdFinishes(p: PresentingDirection, s: Interaction, start: real,
                                      ts: seq<Vector>, stop: real, bounds: Size)
    requires ts != [] && bounds.width > 0.0 && bounds.height > 0.0
    ensures var h := DismissHeading(DismissingOf(p));
      var r := Run(s, [PanEvent(Began, start)] + Moves(Measures(p, ts, bounds)) + [PanEvent(Ended, stop)]);
      && |r.1| == |ts| + 2
      && r.1[|ts| + 1] == if Dot(ts[|ts| - 1], h) > PercentThreshold * Extent(h, bounds) then Finish else Cancel
  {
    var progress := Measures(p, ts, bounds);
    CompletedPan(s, start, progress, stop);
    ProgressTowardsExit(p, ts[|ts| - 1], bounds);
  }

  /** `UIViewControllerBasicTransitioningHandler`. */
  class Handler {
    /** The weakly held view controller is still alive. */
    var viewControllerPresent: bool
    const direction: PresentingDirection
    const animationDuration: real
    const interactor: Interactor
    var allowDismissWithGesture: bool
    /** `panGesture` is among the view controller's view's recognizers. */
    var gestureAttached: bool
    /** The calls made on the view controller and the interactor, in order. */
    var effects: seq<Effect>

    /** While the view controller lives, the gesture is attached exactly when dismissing by gesture is allowed. */
    ghost predicate Valid()
      reads this
    {
      viewControllerPresent ==> (gestureAttached <==> allowDismissWithGesture)
    }

    /** `init(for:direction:animationDuration:)`. */
    constructor (direction: PresentingDirection, animationDuration: real)
      ensures Valid() && viewControllerPresent
      ensures this.direction == direction && this.animationDuration == animationDuration
      ensures !allowDismissWithGesture && !gestureAttached && effects == []
      ensures fresh(interactor) && interactor.State() == Interaction(false, false)
    {
      viewControllerPresent := true;
      this.direction := direction;
      this.animationDuration := animationDuration;
      interactor := new Interactor();
      allowDismissWithGesture := false;
      gestureAttached := false;
      effects := [];
    }

    /** The view controller is deallocated; the weak reference reads nil from now on. */
    method ReleaseViewController()
      requires Valid()
      modifies this
      ensures Valid() && !viewControllerPresent
      ensures allowDismissWithGesture == old(allowDismissWithGesture)
      ensures gestureAttached == old(gestureAttached) && effects == old(effects)
    {
      viewControllerPresent := false;
    }

    /** Assigning `allowDismissWithGesture`, with its `didSet` adding or removing the gesture. */
    method SetAllowDismissWithGesture(allow: bool)
      requires Valid()
      modifies this
      ensures Valid()
      ensures allowDismissWithGesture == allow
      ensures gestureAttached == if viewControllerPresent then allow else old(gestureAttached)
      ensures viewControllerPresent == old(viewControllerPresent) && effects == old(effects)
    {
      allowDismissWithGesture := allow;
      if allow {
        AddDismissGesture();
      } else {
        RemoveDismissGesture();
      }
    }

    /** `addDismissGesture()`. */
    method AddDismissGesture()
      modifies this
      ensures gestureAttached == (old(gestureAttached) || viewControllerPresent)
      ensures viewControllerPresent == old(viewControllerPresent)
      ensures allowDismissWithGesture == old(allowDismissWithGesture) && effects == old(effects)
    {
      if viewControllerPresent {
        gestureAttached := true;
      }
    }

    /** `removeDismissGesture()`. */
    method RemoveDismissGesture()
      modifies this
      ensures gestureAttached == (old(gestureAttached) && !viewControllerPresent)
      ensures viewControllerPresent == old(viewControllerPresent)
      ensures allowDismissWithGesture == old(allowDismissWithGesture) && effects == old(effects)
    {
      if viewControllerPresent {
        gestureAttached := false;
      }
    }

    /**
     * `handleGesture(sender:)` and `handler(_:_:)`: measure the pan in the
     * view's bounds and drive the interactor; nothing happens once the view
     * controller is gone.
     */
    method HandleGesture(state: GestureState, translation: Vector, bounds: Size)
      requires Valid() && bounds.width > 0.0 && bounds.height > 0.0
      modifies this, interactor
      ensures Valid()
      ensures viewControllerPresent == old(viewControllerPresent)
      ensures allowDismissWithGesture == old(allowDismissWithGesture) && gestureAttached == old(gestureAttached)
      ensures !viewControllerPresent ==> interactor.State() == old(interactor.State()) && effects == old(effects)
      ensures viewControllerPresent ==>
        var r := Step(old(interactor.State()), PanEvent(state, Progress(direction, translation, bounds)));
        interactor.State() == r.0 && effects == old(effects) + r.1
    {
      if !viewControllerPresent {
        return;
      }
      var progress := Progress(direction, translation, bounds);
      var calls := Drive(interactor, PanEvent(state, progress));
      effects := effects + calls;
    }

    /** `animationController(forPresented:presenting:source:)`. */
    function AnimationControllerForPresented(): (a: PresentingAnimator)
      reads this
      ensures a.direction == direction && a.animationDuration == animationDuration
    {
      PresentingAnimator(direction, animationDuration)
    }

    /** `animationController(forDismissed:)`: none unless dismissing by gesture is allowed. */
    function AnimationControllerForDismissed(): (a: Option<DismissAnimator>)
      reads this
      ensures a.None? <==> !allowDismissWithGesture
      ensures a.Some? ==> a.value.direction == DismissingOf(direction) && a.value.animationDuration == animationDuration
    {
      if !allowDismissWithGesture then None
      else Some(DismissAnimator(DismissingOf(direction), animationDuration))
    }

    /** `interactionControllerForDismissal(using:)`. */
    function InteractionControllerForDismissal(): (i: Option<Interactor>)
      reads this, interactor
      ensures i.Some? <==> allowDismissWithGesture && interactor.hasStarted
      ensures i.Some? ==> i.value == interactor
    {
      if !allowDismissWithGesture then None
      else if interactor.hasStarted then Some(interactor) else None
    }
  }

  /**
   * Whenever the handler hands out a dismiss animator, that animator takes the
   * view back to where the presenting animator brought it from.
   */
  lemma HandlerAnimatorsAgree(h: Handler, screen: Size)
    requires h.allowDismissWithGesture
    ensures h.AnimationControllerForDismissed().Some?
    ensures h.AnimationControllerForDismissed().value.FinalFrame(screen) ==
            h.AnimationControllerForPresented().InitialFrame(screen)
  {
    LeavesWhereItCameIn(h.direction, h.animationDuration, screen);
  }
}
