/**
 * The `useTypingEffect` hook: a typewriter that types a text one character
 * per timer tick, pauses, deletes it one character per tick and moves on to
 * the next text, forever when `loop` is set or until the last text otherwise.
 *
 * React's `setTimeout` chain is replaced by explicit calls: one `Tick` is one
 * timer firing, and it returns the delay the hook scheduled for that timer.
 */
module TypingEffect {
  import opened Wrappers

  /** The hook's options; a `None` field is an option the caller left out. */
  datatype Options = Options(
    texts: seq<string>,
    typingSpeed: Option<int>,
    deletingSpeed: Option<int>,
    pauseAfterTyping: Option<int>,
    pauseBeforeDeleting: Option<int>,
    loop: Option<bool>,
    autoStart: Option<bool>)

  /** The options after destructuring with defaults. Delays are milliseconds. */
  datatype Config = Config(
    texts: seq<string>,
    typingSpeed: int,
    deletingSpeed: int,
    pauseAfterTyping: int,
    pauseBeforeDeleting: int,
    loop: bool,
    autoStart: bool)

  const DefaultTypingSpeed := 50
  const DefaultDeletingSpeed := 30
  const DefaultPauseAfterTyping := 2000
  const DefaultPauseBeforeDeleting := 500

  function WithDefaults(o: Options): (c: Config) {
    Config(o.texts,
           o.typingSpeed.GetOr(DefaultTypingSpeed),
           o.deletingSpeed.GetOr(DefaultDeletingSpeed),
           o.pauseAfterTyping.GetOr(DefaultPauseAfterTyping),
           o.pauseBeforeDeleting.GetOr(DefaultPauseBeforeDeleting),
           o.loop.GetOr(true),
           o.autoStart.GetOr(true))
  }

  /** The hook's state record. */
  datatype TypingState = TypingState(
    displayText: string,
    currentIndex: int,
    isDeleting: bool,
    isComplete: bool,
    isPaused: bool)

  function Initial(c: Config): (s: TypingState) {
    TypingState("", 0, false, false, !c.autoStart)
  }

  /**
   * What every reachable state satisfies: the index names a text (or is 0 when
   * there are none), the displayed text is a prefix of that text, and a
   * completed animation shows the whole last text of a non-looping effect.
   */
  predicate Inv(c: Config, s: TypingState) {
    && (|c.texts| == 0 ==> s.currentIndex == 0 && s.displayText == "" && !s.isDeleting && !s.isComplete)
    && (|c.texts| > 0 ==> 0 <= s.currentIndex < |c.texts| && s.displayText <= c.texts[s.currentIndex])
    && (s.isComplete ==>
          && !c.loop && s.currentIndex == |c.texts| - 1 && !s.isDeleting
          && s.displayText == c.texts[s.currentIndex])
  }

  /** The transition the effect body selects for a state: one branch of the hook's `useEffect`. */
  datatype Phase = Idle | TypeChar | FinishTyping | DeleteChar | NextText

  function PhaseOf(c: Config, s: TypingState): (p: Phase)
    requires Inv(c, s)
  {
    if s.isPaused || s.isComplete || |c.texts| == 0 then Idle
    else if !s.isDeleting then
      if |s.displayText| < |c.texts[s.currentIndex]| then TypeChar else FinishTyping
    else
      if |s.displayText| > 0 then DeleteChar else NextText
  }

  /** The timer delay the effect schedules for a phase; `None` when it schedules nothing. */
  function Delay(c: Config, p: Phase): (d: Option<int>) {
    match p
    case Idle => None
    case TypeChar => Some(c.typingSpeed)
    case FinishTyping => Some(c.pauseAfterTyping)
    case DeleteChar => Some(c.deletingSpeed)
    case NextText => Some(c.pauseBeforeDeleting)
  }

  /** The state after the scheduled timer fires. Every transition keeps the invariant and leaves `isPaused` alone. */
  function Step(c: Config, s: TypingState): (r: TypingState)
    requires Inv(c, s)
    ensures Inv(c, r)
    ensures r.isPaused == s.isPaused
  {
    match PhaseOf(c, s)
    case Idle => s
    case TypeChar =>
      s.(displayText := c.texts[s.currentIndex][..|s.displayText| + 1])
    case FinishTyping =>
      if !c.loop && s.currentIndex == |c.texts| - 1 then s.(isComplete := true)
      else s.(isDeleting := true)
    case DeleteChar =>
      s.(displayText := s.displayText[..|s.displayText| - 1])
    case NextText =>
      s.(isDeleting := false, currentIndex := (s.currentIndex + 1) % |c.texts|)
  }

  /** The state after `n` timer firings. */
  function Run(c: Config, s: TypingState, n: nat): (r: TypingState)
    requires Inv(c, s)
    ensures Inv(c, r)
    ensures r.isPaused == s.isPaused
    decreases n
  {
    if n == 0 then s else Run(c, Step(c, s), n - 1)
  }

  lemma {:induction false} RunAdd(c: Config, s: TypingState, a: nat, b: nat)
    requires Inv(c, s)
    ensures Run(c, s, a + b) == Run(c, Run(c, s, a), b)
    decreases a
  {
    if a > 0 {
      RunAdd(c, Step(c, s), a - 1, b);
    }
  }

  /** A state where no transition fires (paused, complete, or no texts) stays as it is, however many ticks pass. */
  lemma {:induction false} IdleIsFrozen(c: Config, s: TypingState, n: nat)
    requires Inv(c, s)
    requires s.isPaused || s.isComplete || |c.texts| == 0
    ensures Run(c, s, n) == s
    decreases n
  {
    if n > 0 {
      IdleIsFrozen(c, s, n - 1);
    }
  }

  /** Typing on from any prefix reaches the whole current text after one tick per missing character. */
  lemma {:induction false} TypesOut(c: Config, s: TypingState)
    requires Inv(c, s) && |c.texts| > 0
    requires !s.isPaused && !s.isComplete && !s.isDeleting
    ensures Run(c, s, |c.texts[s.currentIndex]| - |s.displayText|) == s.(displayText := c.texts[s.currentIndex])
    decreases |c.texts[s.currentIndex]| - |s.displayText|
  {
    var t := c.texts[s.currentIndex];
    if |s.displayText| < |t| {
      var s' := Step(c, s);
      assert s' == s.(displayText := t[..|s.displayText| + 1]);
      TypesOut(c, s');
    } else {
      assert s.displayText == t;
    }
  }

  /** Deleting removes the whole displayed text after one tick per character. */
  lemma {:induction false} DeletesOut(c: Config, s: TypingState)
    requires Inv(c, s) && |c.texts| > 0
    requires !s.isPaused && !s.isComplete && s.isDeleting
    ensures Run(c, s, |s.displayText|) == s.(displayText := "")
    decreases |s.displayText|
  {
    if |s.displayText| > 0 {
      DeletesOut(c, Step(c, s));
    }
  }

  /**
   * One full cycle: from the empty display at text `i`, typing the text,
   * pausing, deleting it and advancing takes exactly 2 * |text| + 2 ticks and
   * ends at the empty display of text (i + 1) % |texts| -- unless `i` is the
   * last text of a non-looping effect.
   */
  lemma FullCycle(c: Config, i: int)
    requires 0 <= i < |c.texts|
    requires c.loop || i < |c.texts| - 1
    ensures var start := TypingState("", i, false, false, false);
            Run(c, start, 2 * |c.texts[i]| + 2) == TypingState("", (i + 1) % |c.texts|, false, false, false)
  {
    var start := TypingState("", i, false, false, false);
    var n := |c.texts[i]|;
    var typed := start.(displayText := c.texts[i]);
    var deleting := typed.(isDeleting := true);
    var deleted := deleting.(displayText := "");
    TypesOut(c, start);
    assert Run(c, typed, 1) == deleting;
    DeletesOut(c, deleting);
    assert Run(c, deleted, 1) == TypingState("", (i + 1) % |c.texts|, false, false, false);
    RunAdd(c, start, n, 1);
    RunAdd(c, start, n + 1, n);
    RunAdd(c, start, 2 * n + 1, 1);
  }

  /**
   * The last text of a non-looping effect is typed out and then the effect
   * completes, after |text| + 1 ticks; nothing changes after that.
   */
  lemma Completes(c: Config, n: nat)
    requires |c.texts| > 0 && !c.loop
    ensures var last := |c.texts| - 1;
            var done := TypingState(c.texts[last], last, false, true, false);
            && Run(c, TypingState("", last, false, false, false), |c.texts[last]| + 1) == done
            && Run(c, done, n) == done
  {
    var last := |c.texts| - 1;
    var start := TypingState("", last, false, false, false);
    var done := TypingState(c.texts[last], last, false, true, false);
    TypesOut(c, start);
    assert Run(c, start.(displayText := c.texts[last]), 1) == done;
    RunAdd(c, start, |c.texts[last]|, 1);
    IdleIsFrozen(c, done, n);
  }

  /** The hook as an object: the state record's fields are updated in place by the timer and the three controls. */
  class TypingEffect {
    const config: Config
    var displayText: string
    var currentIndex: int
    var isDeleting: bool
    var isComplete: bool
    var isPaused: bool

    function Current(): (s: TypingState)
      reads this
    {
      TypingState(displayText, currentIndex, isDeleting, isComplete, isPaused)
    }

    ghost predicate Valid()
      reads this
    {
      Inv(config, Current())
    }

    constructor(options: Options)
      ensures config == WithDefaults(options)
      ensures Current() == Initial(config)
      ensures config.typingSpeed == options.typingSpeed.GetOr(50)
      ensures config.deletingSpeed == options.deletingSpeed.GetOr(30)
      ensures config.pauseAfterTyping == options.pauseAfterTyping.GetOr(2000)
      ensures config.pauseBeforeDeleting == options.pauseBeforeDeleting.GetOr(500)
      ensures config.loop == options.loop.GetOr(true)
      ensures displayText == "" && currentIndex == 0 && !isDeleting && !isComplete
      ensures isPaused == !options.autoStart.GetOr(true)
      ensures Valid()
    {
      config := WithDefaults(options);
      displayText := "";
      currentIndex := 0;
      isDeleting := false;
      isComplete := false;
      isPaused := !options.autoStart.GetOr(true);
    }

    /** One timer firing: applies the single transition of the current phase and returns the delay that was scheduled for it. */
    method Tick() returns (delay: Option<int>)
      requires Valid()
      modifies this
      ensures Valid()
      ensures Current() == Step(config, old(Current()))
      ensures delay == Delay(config, PhaseOf(config, old(Current())))
      ensures isPaused == old(isPaused)
      // nothing fires while paused or complete, or without texts
      ensures old(isPaused || isComplete) || |config.texts| == 0 ==> Current() == old(Current()) && delay == None
      // typing: the prefix one character longer
      ensures old(PhaseOf(config, Current())) == TypeChar ==>
                && currentIndex == old(currentIndex)
                && displayText == config.texts[currentIndex][..|old(displayText)| + 1]
      // fully typed: complete on the last text of a non-looping effect, start deleting otherwise
      ensures old(PhaseOf(config, Current())) == FinishTyping ==>
                && displayText == old(displayText) && currentIndex == old(currentIndex)
                && isComplete == (!config.loop && currentIndex == |config.texts| - 1)
                && isDeleting == !isComplete
      // deleting: exactly the last character goes
      ensures old(PhaseOf(config, Current())) == DeleteChar ==>
                && currentIndex == old(currentIndex)
                && old(displayText) == displayText + [old(displayText)[|old(displayText)| - 1]]
      // deleted: the next text, wrapping around
      ensures old(PhaseOf(config, Current())) == NextText ==>
                && displayText == "" && !isDeleting
                && currentIndex == (old(currentIndex) + 1) % |config.texts|
    {
      if isPaused || isComplete || |config.texts| == 0 {
        return None;
      }
      var currentText := config.texts[currentIndex];
      if !isDeleting {
        if |displayText| < |currentText| {
          displayText := currentText[..|displayText| + 1];
          delay := Some(config.typingSpeed);
        } else {
          if !config.loop && currentIndex == |config.texts| - 1 {
            isComplete := true;
          } else {
            isDeleting := true;
          }
          delay := Some(config.pauseAfterTyping);
        }
      } else {
        if |displayText| > 0 {
          displayText := displayText[..|displayText| - 1];
          delay := Some(config.deletingSpeed);
        } else {
          isDeleting := false;
          currentIndex := (currentIndex + 1) % |config.texts|;
          delay := Some(config.pauseBeforeDeleting);
        }
      }
    }

    /** Back to the first text with every flag cleared; running even if the effect was created paused. */
    method Restart()
      modifies this
      ensures Valid()
      ensures Current() == TypingState("", 0, false, false, false)
    {
      displayText, currentIndex, isDeleting, isComplete, isPaused := "", 0, false, false, false;
    }

    method Pause()
      requires Valid()
      modifies this
      ensures Valid()
      ensures Current() == old(Current()).(isPaused := true)
    {
      isPaused := true;
    }

    method Resume()
      requires Valid()
      modifies this
      ensures Valid()
      ensures Current() == old(Current()).(isPaused := false)
    {
      isPaused := false;
    }
  }
}
