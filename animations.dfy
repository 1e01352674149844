/**
 * `createFadeVariant`: a pair of animation states, hidden (transparent and
 * shifted along one axis) and visible (opaque and in place), built from a
 * direction, a distance, a duration and a delay.
 */
module Animations {
  import opened Wrappers

  datatype FadeDirection = Up | Down | Left | Right

  /** The options; a `None` field is one the caller left out. */
  datatype FadeOptions = FadeOptions(direction: Option<FadeDirection>, distance: Option<real>, duration: Option<real>, delay: Option<real>)

  datatype Axis = X | Y

  datatype Transition = Transition(duration: real, delay: real, ease: seq<real>)

  /** The hidden state: its opacity and its offset on one axis. */
  datatype Hidden = Hidden(opacity: real, axis: Axis, offset: real)

  /** The visible state: its opacity, its position on one axis and the transition into it. */
  datatype Visible = Visible(opacity: real, axis: Axis, position: real, transition: Transition)

  datatype Variants = Variants(hidden: Hidden, visible: Visible)

  const DefaultDistance: real := 30.0
  const DefaultDuration: real := 0.6
  const DefaultDelay: real := 0.0
  const EaseCurve: seq<real> := [0.25, 0.46, 0.45, 0.94]

  predicate IsVertical(d: FadeDirection) {
    d == Up || d == Down
  }

  /**
   * Vertical directions animate `y` and horizontal ones `x`, in both states;
   * the element starts `distance` away on the side it comes from (below for
   * `Up`, right for `Left`: positive; above for `Down`, left for `Right`:
   * negative) and ends at 0, fading from 0 to 1 over exactly the given
   * duration after the given delay.
   */
  function CreateFadeVariant(o: FadeOptions): (v: Variants)
    ensures v.hidden.axis == v.visible.axis
    ensures v.hidden.axis == Y <==> IsVertical(o.direction.GetOr(Up))
    ensures o.direction.GetOr(Up) in {Up, Left} ==> v.hidden.offset == o.distance.GetOr(DefaultDistance)
    ensures o.direction.GetOr(Up) in {Down, Right} ==> v.hidden.offset == -o.distance.GetOr(DefaultDistance)
    ensures v.hidden.opacity == 0.0 && v.visible.opacity == 1.0 && v.visible.position == 0.0
    ensures v.visible.transition.duration == o.duration.GetOr(DefaultDuration)
    ensures v.visible.transition.delay == o.delay.GetOr(DefaultDelay)
  {
    var direction := o.direction.GetOr(Up);
    var distance := o.distance.GetOr(DefaultDistance);
    var duration := o.duration.GetOr(DefaultDuration);
    var delay := o.delay.GetOr(DefaultDelay);
    var axis := if IsVertical(direction) then Y else X;
    var value := if direction == Up || direction == Left then distance else -distance;
    Variants(Hidden(0.0, axis, value), Visible(1.0, axis, 0.0, Transition(duration, delay, EaseCurve)))
  }

  /** With no options: fade up from 30 below over 0.6 without delay. */
  lemma DefaultFade()
    ensures CreateFadeVariant(FadeOptions(None, None, None, None))
            == Variants(Hidden(0.0, Y, 30.0), Visible(1.0, Y, 0.0, Transition(0.6, 0.0, EaseCurve)))
  {
  }

  function Opposite(d: FadeDirection): (o: FadeDirection) {
    match d
    case Up => Down
    case Down => Up
    case Left => Right
    case Right => Left
  }

  /** Opposite directions use the same axis and mirror the starting offset; everything else is the same. */
  lemma OppositeDirectionsMirror(d: FadeDirection, distance: Option<real>, duration: Option<real>, delay: Option<real>)
    ensures var v := CreateFadeVariant(FadeOptions(Some(d), distance, duration, delay));
            var w := CreateFadeVariant(FadeOptions(Some(Opposite(d)), distance, duration, delay));
            && w.hidden == v.hidden.(offset := -v.hidden.offset)
            && w.visible == v.visible
  {
  }
}
