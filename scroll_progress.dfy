/**
 * The `useScrollProgress` hook: on each animation frame it publishes how far
 * the page is scrolled (0 at the top, 1 at the bottom), which way it last
 * moved and whether it is past a threshold. Scroll events are coalesced by a
 * `ticking` flag so that at most one frame is requested at a time.
 *
 * Window reads become parameters; `requestAnimationFrame` becomes the pair
 * `OnScroll` (which reports whether it requested a frame) and `OnFrame` (the
 * requested frame running).
 */
module ScrollProgress {
  import opened Wrappers

  datatype Direction = Up | Down

  /** The published state; `direction` is `None` for JavaScript's `null`. */
  datatype ScrollData = ScrollData(progress: real, scrollY: int, direction: Option<Direction>, isScrolled: bool)

  const DefaultThreshold := 50
  const InitialData := ScrollData(0.0, 0, None, false)

  function Min(a: real, b: real): (m: real) {
    if a <= b then a else b
  }

  /**
   * The fraction of the scrollable height that lies above the viewport; 0 on
   * a page that does not scroll. It is capped at 1 but not floored at 0: an
   * overscroll above the top gives a negative value.
   */
  function Progress(scrollY: int, docHeight: int): (p: real)
    ensures docHeight <= 0 ==> p == 0.0
    ensures p <= 1.0
    ensures 0 <= scrollY ==> 0.0 <= p
    ensures docHeight > 0 && scrollY <= docHeight ==> p * docHeight as real == scrollY as real
    ensures docHeight > 0 && scrollY >= docHeight ==> p == 1.0
    ensures docHeight > 0 && scrollY < 0 ==> p < 0.0
  {
    if docHeight > 0 then
      QuotientFacts(scrollY as real, docHeight as real);
      Min(scrollY as real / docHeight as real, 1.0)
    else 0.0
  }

  /** Sign and size of `y / d` for a positive `d`. */
  lemma QuotientFacts(y: real, d: real)
    requires d > 0.0
    ensures (y / d) * d == y
    ensures y >= d ==> y / d >= 1.0
    ensures y >= 0.0 ==> y / d >= 0.0
    ensures y < 0.0 ==> y / d < 0.0
  {
    var q := y / d;
    assert q * d == y;
    assert (q - 1.0) * d == y - d;
  }

  /** The direction from the last recorded offset to this one: `Down` when it grew, `Up` when it shrank, none when equal. */
  function DirectionOf(scrollY: int, lastScrollY: int): (d: Option<Direction>)
    ensures d == None <==> scrollY == lastScrollY
    ensures d == Some(Down) <==> scrollY > lastScrollY
    ensures d == Some(Up) <==> scrollY < lastScrollY
  {
    var direction := if scrollY > lastScrollY then Down else Up;
    if scrollY == lastScrollY then None else Some(direction)
  }

  /** The record `updateScroll` publishes for the window readings and the last recorded offset. */
  function Compute(scrollY: int, scrollHeight: int, innerHeight: int, lastScrollY: int, threshold: int): (d: ScrollData) {
    ScrollData(Progress(scrollY, scrollHeight - innerHeight), scrollY,
               DirectionOf(scrollY, lastScrollY), scrollY > threshold)
  }

  /** The header's rule: it hides while the page scrolls down past the threshold. */
  function HeaderHidden(d: ScrollData): (hidden: bool) {
    d.direction == Some(Down) && d.isScrolled
  }

  /** The header hides exactly when the offset grew since the last frame and is beyond the threshold. */
  lemma HeaderHiddenWhenScrollingDown(scrollY: int, scrollHeight: int, innerHeight: int, lastScrollY: int, threshold: int)
    ensures HeaderHidden(Compute(scrollY, scrollHeight, innerHeight, lastScrollY, threshold))
            <==> scrollY > lastScrollY && scrollY > threshold
  {
  }

  /** The hook as an object: the two refs, the published state and the listener. */
  class ScrollTracker {
    const threshold: int
    const disabled: bool
    var data: ScrollData
    var lastScrollY: int
    var ticking: bool
    var listening: bool
    /** The animation frames requested and not yet run. */
    ghost var pendingFrames: nat

    /** At most one frame is pending, exactly when `ticking` is set; a disabled tracker never leaves its initial state. */
    ghost predicate Valid()
      reads this
    {
      && pendingFrames <= 1
      && (ticking <==> pendingFrames == 1)
      && (disabled ==> !listening && !ticking && data == InitialData && lastScrollY == 0)
    }

    constructor(threshold: Option<int>, disabled: Option<bool>)
      ensures this.threshold == threshold.GetOr(DefaultThreshold)
      ensures this.disabled == disabled.GetOr(false)
      ensures data == InitialData && lastScrollY == 0
      ensures !ticking && !listening && pendingFrames == 0
      ensures Valid()
    {
      this.threshold := threshold.GetOr(DefaultThreshold);
      this.disabled := disabled.GetOr(false);
      data := InitialData;
      lastScrollY := 0;
      ticking := false;
      listening := false;
      pendingFrames := 0;
    }

    /** The hook's `updateScroll`: publish the new record, remember the offset, clear `ticking`. */
    method UpdateScroll(scrollY: int, scrollHeight: int, innerHeight: int)
      requires !disabled && pendingFrames == 0
      modifies this`data, this`lastScrollY, this`ticking
      ensures Valid()
      ensures data == Compute(scrollY, scrollHeight, innerHeight, old(lastScrollY), threshold)
      ensures lastScrollY == scrollY && !ticking
    {
      var docHeight := scrollHeight - innerHeight;
      var progress := if docHeight > 0 then Min(scrollY as real / docHeight as real, 1.0) else 0.0;
      var direction := if scrollY > lastScrollY then Down else Up;
      var isScrolled := scrollY > threshold;
      data := ScrollData(progress, scrollY, if scrollY == lastScrollY then None else Some(direction), isScrolled);
      lastScrollY := scrollY;
      ticking := false;
    }

    /** The hook's effect: unless disabled, one immediate update and then the scroll listener is attached. */
    method Mount(scrollY: int, scrollHeight: int, innerHeight: int)
      requires Valid() && !listening && !ticking
      modifies this
      ensures Valid()
      ensures disabled ==> unchanged(this)
      ensures !disabled ==> && listening && !ticking && lastScrollY == scrollY
                            && data == Compute(scrollY, scrollHeight, innerHeight, old(lastScrollY), threshold)
      ensures pendingFrames == old(pendingFrames)
    {
      if disabled {
        return;
      }
      UpdateScroll(scrollY, scrollHeight, innerHeight);
      listening := true;
    }

    /** The hook's `handleScroll`, run for a scroll event when the listener is attached: request a frame unless one is pending. */
    method OnScroll() returns (requested: bool)
      requires Valid()
      modifies this`ticking, this`pendingFrames
      ensures Valid()
      ensures requested <==> listening && !old(ticking)
      ensures ticking == (old(ticking) || requested)
      ensures pendingFrames == old(pendingFrames) + (if requested then 1 else 0)
    {
      requested := false;
      if listening && !ticking {
        requested := true;
        pendingFrames := pendingFrames + 1;
        ticking := true;
      }
    }

    /** The requested frame runs `updateScroll` with the window's readings at that time. */
    method OnFrame(scrollY: int, scrollHeight: int, innerHeight: int)
      requires Valid() && ticking
      modifies this`data, this`lastScrollY, this`ticking, this`pendingFrames
      ensures Valid()
      ensures data == Compute(scrollY, scrollHeight, innerHeight, old(lastScrollY), threshold)
      ensures data.progress == Progress(scrollY, scrollHeight - innerHeight) && data.scrollY == scrollY
      ensures data.direction == None <==> scrollY == old(lastScrollY)
      ensures data.direction == Some(Down) <==> scrollY > old(lastScrollY)
      ensures data.isScrolled <==> scrollY > threshold
      ensures lastScrollY == scrollY && !ticking && pendingFrames == 0
    {
      pendingFrames := 0;
      UpdateScroll(scrollY, scrollHeight, innerHeight);
    }

    /** The effect's cleanup removes the listener. A frame already requested is not cancelled and still runs. */
    method Unmount()
      requires Valid()
      modifies this`listening
      ensures Valid() && !listening
    {
      listening := false;
    }
  }

  /** Two frames at the same offset: the second publishes no direction. */
  method SameOffsetTwice(t: ScrollTracker, scrollY: int, scrollHeight: int, innerHeight: int)
    requires t.Valid() && t.listening && !t.ticking
    modifies t
    ensures t.data.direction == None
  {
    var requested := t.OnScroll();
    t.OnFrame(scrollY, scrollHeight, innerHeight);
    requested := t.OnScroll();
    t.OnFrame(scrollY, scrollHeight, innerHeight);
  }
}
