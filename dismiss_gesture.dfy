/**
 * `UIViewControllerDismissGestureHandler`: attaches a pan gesture to a view
 * controller when it is created and lets that pan dismiss the view
 * controller towards one fixed side. It is the view controller's
 * transitioning delegate for the dismissal only.
 */
module DismissGesture {
  import opened Wrappers
  import opened PanGesture

  /** This file's own `UIViewControllerDismissGestureDirection`. */
  datatype DismissDirection = TopToBottom | LeftToRight | BottomToTop | RightToLeft

  /** The way a dismissed view moves, as its name says: down, right, up or left. */
  function Heading(d: DismissDirection): (h: Vector)
    ensures AxisUnit(h)
  {
    match d
    case TopToBottom => Vector(0.0, 1.0)
    case LeftToRight => Vector(1.0, 0.0)
    case BottomToTop => Vector(0.0, -1.0)
    case RightToLeft => Vector(-1.0, 0.0)
  }

  /** `progress(_:_:)`: measured for the handler's own direction; top-to-bottom is the default branch. */
  function Progress(d: DismissDirection, t: Vector, bounds: Size): (r: real)
    requires bounds.width > 0.0 && bounds.height > 0.0
    ensures 0.0 <= r <= 1.0
    ensures 0.0 <= Dot(t, Heading(d)) <= Extent(Heading(d), bounds) ==>
      r == Dot(t, Heading(d)) / Extent(Heading(d), bounds)
  {
    match d
    case LeftToRight => LeftToRightProgress(t, bounds)
    case BottomToTop => BottomToTopProgress(t, bounds)
    case RightToLeft => RightToLeftProgress(t, bounds)
    case _ => TopToBottomProgress(t, bounds)
  }

  /**
   * A pan makes progress exactly when it moves towards the side the view is
   * dismissed to, is the share of the view's extent moved that way, reaches 1
   * once it has moved the whole extent, and passes the 0.3 threshold exactly
   * when the pan has moved more than 30% of the extent.
   */
  lemma ProgressTowardsExit(d: DismissDirection, t: Vector, bounds: Size)
    requires bounds.width > 0.0 && bounds.height > 0.0
    ensures var h := Heading(d); var r := Progress(d, t, bounds);
      && (r > 0.0 <==> Dot(t, h) > 0.0)
      && (r == 1.0 <==> Dot(t, h) >= Extent(h, bounds))
      && (0.0 <= Dot(t, h) <= Extent(h, bounds) ==> r == Dot(t, h) / Extent(h, bounds))
      && (r > PercentThreshold <==> Dot(t, h) > PercentThreshold * Extent(h, bounds))
  {
    ClampedShareThreshold(Progress(d, t, bounds), Dot(t, Heading(d)), Extent(Heading(d), bounds));
  }

  /** `UIViewControllerDismissAnimator` and its `finalFrame()`. */
  datatype DismissAnimator = DismissAnimator(direction: DismissDirection, animationDuration: real) {
    function FinalFrame(screen: Size): Rect {
      var corner := match direction
        case BottomToTop => Vector(0.0, -screen.height)
        case LeftToRight => Vector(screen.width, 0.0)
        case RightToLeft => Vector(-screen.width, 0.0)
        case _ => Vector(0.0, screen.height);
      Rect(corner, screen)
    }
  }

  /** The dismissed view ends one screen along its motion, wholly off the screen. */
  lemma DismissFrames(a: DismissAnimator, screen: Size)
    requires screen.width > 0.0 && screen.height > 0.0
    ensures a.FinalFrame(screen).size == screen
    ensures a.FinalFrame(screen).origin == Across(Heading(a.direction), screen)
    ensures !Overlap(a.FinalFrame(screen), OnScreen(screen))
  {
    AcrossIsOffScreen(Heading(a.direction), screen);
  }

  /** `UIViewControllerDismissGestureHandler`. */
  class Handler {
    /** The weakly held view controller is still alive. */
    var viewControllerPresent: bool
    const direction: DismissDirection
    const animationDuration: real
    const interactor: Interactor
    /** The pan gesture is among the view controller's view's recognizers. */
    var gestureAttached: bool
    /** The calls made on the view controller and the interactor, in order. */
    var effects: seq<Effect>

    /** `init(for:direction:animationDuration:)`, which attaches the pan gesture at once. */
    constructor (direction: DismissDirection, animationDuration: real)
      ensures viewControllerPresent && gestureAttached && effects == []
      ensures this.direction == direction && this.animationDuration == animationDuration
      ensures fresh(interactor) && interactor.State() == Interaction(false, false)
    {
      viewControllerPresent := true;
      this.direction := direction;
      this.animationDuration := animationDuration;
      interactor := new Interactor();
      effects := [];
      gestureAttached := false;
      new;
      AddDragDownGesture();
    }

    /** `addDragDownGesture()`. */
    method AddDragDownGesture()
      modifies this
      ensures gestureAttached == (old(gestureAttached) || viewControllerPresent)
      ensures viewControllerPresent == old(viewControllerPresent) && effects == old(effects)
    {
      if viewControllerPresent {
        gestureAttached := true;
      }
    }

    /** The view controller is deallocated; the weak reference reads nil from now on. */
    method ReleaseViewController()
      modifies this
      ensures !viewControllerPresent
      ensures gestureAttached == old(gestureAttached) && effects == old(effects)
    {
      viewControllerPresent := false;
    }

    /**
     * `handleGesture(sender:)` and `handler(_:_:)`: measure the pan in the
     * view's bounds and drive the interactor; nothing happens once the view
     * controller is gone.
     */
    method HandleGesture(state: GestureState, translation: Vector, bounds: Size)
      requires bounds.width > 0.0 && bounds.height > 0.0
      modifies this, interactor
      ensures viewControllerPresent == old(viewControllerPresent) && gestureAttached == old(gestureAttached)
      ensures !viewControllerPresent ==> interactor.State() == old(interactor.State()) && effects == old(effects)
      ensures viewControllerPresent ==>
        var r := Step(old(interactor.State()), PanEvent(state, Progress(direction, translation, bounds)));
        interactor.State() == r.0 && effects == old(effects) + r.1
    {
      if !viewControllerPresent {
        return;
      }
      var progress := Progress(direction, translation, bounds);
      var calls := Drive(interactor, PanEvent(state, progress));
      effects := effects + calls;
    }

    /** `animationController(forDismissed:)`: always an animator with the handler's direction and duration. */
    function AnimationControllerForDismissed(): (a: DismissAnimator)
      reads this
      ensures a.direction == direction && a.animationDuration == animationDuration
    {
      DismissAnimator(direction, animationDuration)
    }

    /** `interactionControllerForDismissal(using:)`: the interactor while a pan is under way. */
    function InteractionControllerForDismissal(): (i: Option<Interactor>)
      reads this, interactor
      ensures i.Some? <==> interactor.hasStarted
      ensures i.Some? ==> i.value == interactor
    {
      if interactor.hasStarted then Some(interactor) else None
    }
  }
}

/**
 * The two transition files measure a pan and place the dismissed view the
 * same way: a basic handler presenting from `p` behaves, on dismissal, like a
 * dismiss-gesture handler for `p`'s dismissing direction.
 */
module TransitionAgreement {
  import opened PanGesture
  import BasicTransitioning
  import DismissGesture

  function Convert(d: BasicTransitioning.DismissDirection): (e: DismissGesture.DismissDirection)
    ensures DismissGesture.Heading(e) == BasicTransitioning.DismissHeading(d)
  {
    match d
    case TopToBottom => DismissGesture.TopToBottom
    case LeftToRight => DismissGesture.LeftToRight
    case BottomToTop => DismissGesture.BottomToTop
    case RightToLeft => DismissGesture.RightToLeft
  }

  lemma HandlersAgree(p: BasicTransitioning.PresentingDirection, duration: real, t: Vector, bounds: Size, screen: Size)
    requires bounds.width > 0.0 && bounds.height > 0.0
    ensures var d := BasicTransitioning.DismissingOf(p);
      && BasicTransitioning.Progress(p, t, bounds) == DismissGesture.Progress(Convert(d), t, bounds)
      && BasicTransitioning.DismissAnimator(d, duration).FinalFrame(screen) ==
         DismissGesture.DismissAnimator(Convert(d), duration).FinalFrame(screen)
  {
  }
}
