/**
 * The hidden egg button: seven clicks unlock the secrets once and for all.
 * The first click shows a hint for a moment; the seventh plays an activation
 * animation, tells the page, and a later timeout clears the counter.
 * Each timeout is an event of its own here, fired by the environment.
 */
module Egg {
  /** Clicks needed to unlock. */
  const UNLOCK_CLICKS: nat := 7

  /** The component's state, with a flag for each timeout still to fire. */
  datatype State = State(
    clicks: nat,
    showHint: bool,
    isActivated: bool,
    isPermanentlyActivated: bool,
    hintPending: bool,
    resetPending: bool)

  /**
   * Before unlocking, the count stays below seven and nothing is animating;
   * once unlocked the count is seven until the reset timeout clears it, and
   * the animation lasts exactly as long as that timeout is pending.
   */
  predicate Inv(s: State) {
    && (s.showHint ==> s.hintPending)
    && (!s.isPermanentlyActivated ==> s.clicks < UNLOCK_CLICKS && !s.isActivated && !s.resetPending)
    && (s.isPermanentlyActivated ==> s.clicks == (if s.resetPending then UNLOCK_CLICKS else 0))
    && (s.isActivated <==> s.resetPending)
  }

  function Initial(): (s: State)
    ensures Inv(s) && s.clicks == 0 && !s.isPermanentlyActivated
  {
    State(0, false, false, false, false, false)
  }

  /** What a click leaves behind, and whether it called `onActivate`. */
  datatype Clicked = Clicked(next: State, activated: bool)

  /** `handleClick`. */
  function Click(s: State): Clicked {
    if s.isPermanentlyActivated then Clicked(s, false)
    else
      var newClicks := s.clicks + 1;
      var s1 := s.(clicks := newClicks);
      var s2 := if newClicks == 1 then s1.(showHint := true, hintPending := true) else s1;
      if newClicks >= UNLOCK_CLICKS then
        Clicked(s2.(isActivated := true, isPermanentlyActivated := true, resetPending := true), true)
      else Clicked(s2, false)
  }

  /** The hint's timeout: the hint goes away. */
  function HintTimeout(s: State): State {
    if s.hintPending then s.(showHint := false, hintPending := false) else s
  }

  /** The activation's timeout: the counter and the animation are cleared; the unlock stays. */
  function ResetTimeout(s: State): State {
    if s.resetPending then s.(clicks := 0, isActivated := false, resetPending := false) else s
  }

  datatype BadgeView = Hidden | Shown(remaining: nat)

  /** The countdown badge: shown while some but not all clicks are in, with the clicks still needed. */
  function Badge(s: State): BadgeView {
    if 0 < s.clicks < UNLOCK_CLICKS && !s.isPermanentlyActivated then Shown(UNLOCK_CLICKS - s.clicks) else Hidden
  }

  /** After unlocking, a click changes nothing and does not call `onActivate`. */
  lemma ClickAfterUnlock(s: State)
    requires s.isPermanentlyActivated
    ensures Click(s) == Clicked(s, false)
  {
  }

  /**
   * Before unlocking, a click counts exactly one; it shows the hint exactly
   * when it is the first; it unlocks and calls `onActivate` exactly when it
   * is the seventh.
   */
  lemma ClickCounts(s: State)
    requires Inv(s) && !s.isPermanentlyActivated
    ensures var r := Click(s);
      && r.next.clicks == s.clicks + 1
      && (r.next.showHint <==> s.showHint || s.clicks == 0)
      && (r.activated <==> s.clicks + 1 == UNLOCK_CLICKS)
      && (r.activated <==> r.next.isPermanentlyActivated)
      && (r.activated ==> r.next.isActivated && r.next.resetPending)
  {
  }

  /** The reset timeout clears the counter and the animation, and keeps the unlock. */
  lemma ResetKeepsUnlock(s: State)
    requires Inv(s) && s.resetPending
    ensures var r := ResetTimeout(s);
      r.clicks == 0 && !r.isActivated && r.isPermanentlyActivated && Badge(r) == Hidden
  {
  }

  /** The badge is shown exactly while counting, and shows a number from one to six. */
  lemma BadgeRange(s: State)
    requires Inv(s)
    ensures Badge(s).Shown? <==> 0 < s.clicks && !s.isPermanentlyActivated
    ensures Badge(s).Shown? ==> 1 <= Badge(s).remaining <= 6 && Badge(s).remaining + s.clicks == UNLOCK_CLICKS
  {
  }

  /** Each click before the last takes one off the badge; the last hides it. */
  lemma BadgeCountsDown(s: State)
    requires Inv(s) && !s.isPermanentlyActivated
    ensures var r := Click(s).next;
      && (s.clicks + 1 < UNLOCK_CLICKS ==> Badge(r) == Shown(UNLOCK_CLICKS - (s.clicks + 1)))
      && (s.clicks + 1 == UNLOCK_CLICKS ==> Badge(r) == Hidden)
  {
  }

  /** What can happen to the egg: a click, or one of its timeouts firing. */
  datatype Event = ClickEvent | HintFires | ResetFires

  function Step(s: State, e: Event): Clicked {
    match e
    case ClickEvent => Click(s)
    case HintFires => Clicked(HintTimeout(s), false)
    case ResetFires => Clicked(ResetTimeout(s), false)
  }

  lemma StepKeepsInv(s: State, e: Event)
    requires Inv(s)
    ensures Inv(Step(s, e).next)
    ensures s.isPermanentlyActivated ==> Step(s, e).next.isPermanentlyActivated
    ensures Step(s, e).activated ==> !s.isPermanentlyActivated && Step(s, e).next.isPermanentlyActivated
  {
  }

  /** The state after a run of events, and how many times `onActivate` was called. */
  datatype Outcome = Outcome(last: State, activations: nat)

  function Run(s: State, events: seq<Event>): Outcome
    decreases |events|
  {
    if |events| == 0 then Outcome(s, 0)
    else
      var r := Step(s, events[0]);
      var rest := Run(r.next, events[1..]);
      Outcome(rest.last, rest.activations + if r.activated then 1 else 0)
  }

  /** Whatever happens, `onActivate` is called at most once, and never once the egg is unlocked. */
  lemma {:induction false} ActivatesAtMostOnce(s: State, events: seq<Event>)
    requires Inv(s)
    ensures Inv(Run(s, events).last)
    ensures Run(s, events).activations <= if s.isPermanentlyActivated then 0 else 1
    ensures Run(s, events).activations == 1 ==> Run(s, events).last.isPermanentlyActivated
    ensures s.isPermanentlyActivated ==> Run(s, events).last.isPermanentlyActivated
    decreases |events|
  {
    if |events| > 0 {
      StepKeepsInv(s, events[0]);
      ActivatesAtMostOnce(Step(s, events[0]).next, events[1..]);
    }
  }

  /** From any count, the clicks still needed unlock the egg, calling `onActivate` once, on the last. */
  lemma {:induction false} RemainingClicksUnlock(s: State, n: nat)
    requires Inv(s) && !s.isPermanentlyActivated && s.clicks + n == UNLOCK_CLICKS
    ensures var o := Run(s, seq(n, _ => ClickEvent));
      o.activations == 1 && o.last.isPermanentlyActivated && o.last.isActivated
    decreases n
  {
    var events := seq(n, _ => ClickEvent);
    assert events[1..] == seq(n - 1, _ => ClickEvent);
    StepKeepsInv(s, ClickEvent);
    if n > 1 {
      RemainingClicksUnlock(Click(s).next, n - 1);
    }
  }

  /** Seven clicks from the start unlock the egg. */
  lemma SevenClicksUnlock()
    ensures var o := Run(Initial(), seq(UNLOCK_CLICKS, _ => ClickEvent));
      o.activations == 1 && o.last.isPermanentlyActivated && o.last.isActivated
  {
    RemainingClicksUnlock(Initial(), UNLOCK_CLICKS);
  }

  /** The component: its four state fields and its two pending timeouts. */
  class EasterEgg {
    var clicks: nat
    var showHint: bool
    var isActivated: bool
    var isPermanentlyActivated: bool
    var hintPending: bool
    var resetPending: bool

    function Snapshot(): State
      reads this
    {
      State(clicks, showHint, isActivated, isPermanentlyActivated, hintPending, resetPending)
    }

    predicate Valid()
      reads this
    {
      Inv(Snapshot())
    }

    constructor ()
      ensures Valid() && Snapshot() == Initial()
    {
      clicks, showHint, isActivated := 0, false, false;
      isPermanentlyActivated, hintPending, resetPending := false, false, false;
    }

    /** `handleClick`; `activate` tells whether it called `onActivate`. */
    method HandleClick() returns (activate: bool)
      requires Valid()
      modifies this
      ensures Valid()
      ensures Click(old(Snapshot())) == Clicked(Snapshot(), activate)
    {
      StepKeepsInv(Snapshot(), ClickEvent);
      if isPermanentlyActivated {
        return false;
      }
      var newClicks := clicks + 1;
      clicks := newClicks;
      if newClicks == 1 {
        showHint, hintPending := true, true;
      }
      activate := false;
      if newClicks >= UNLOCK_CLICKS {
        isActivated, isPermanentlyActivated, resetPending := true, true, true;
        activate := true;
      }
    }

    /** The hint's timeout firing. */
    method FireHintTimeout()
      requires Valid() && hintPending
      modifies this
      ensures Valid() && Snapshot() == HintTimeout(old(Snapshot()))
    {
      StepKeepsInv(Snapshot(), HintFires);
      showHint, hintPending := false, false;
    }

    /** The activation's timeout firing. */
    method FireResetTimeout()
      requires Valid() && resetPending
      modifies this
      ensures Valid() && Snapshot() == ResetTimeout(old(Snapshot()))
    {
      StepKeepsInv(Snapshot(), ResetFires);
      clicks, isActivated, resetPending := 0, false, false;
    }

    /** The countdown badge as rendered. */
    method BadgeShown() returns (badge: BadgeView)
      requires Valid()
      ensures badge == Badge(Snapshot())
      ensures badge.Shown? ==> 1 <= badge.remaining <= 6
    {
      BadgeRange(Snapshot());
      if clicks > 0 && clicks < UNLOCK_CLICKS && !isPermanentlyActivated {
        badge := Shown(UNLOCK_CLICKS - clicks);
      } else {
        badge := Hidden;
      }
    }
  }
}
