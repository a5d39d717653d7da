/**
 * The character-by-character text reveal component.
 *
 * React's rendering is reduced to its observable steps:
 *  - mounting (the constructor) sets both state cells to their initial values
 *    and runs the effect once;
 *  - the effect either schedules one timeout, whose closure captures the
 *    current `text` and `currentIndex`, or, when nothing is left to type,
 *    invokes `onComplete` (when one was passed);
 *  - a timeout firing (`Tick`) appends one character and bumps the index,
 *    which changes a dependency of the effect, so the effect runs again;
 *  - a re-render with different props (`Update`) runs the cleanup (cancelling
 *    the pending timeout) and then the effect again; identical props do not
 *    re-run it;
 *  - unmounting (`Unmount`) runs the cleanup only.
 * Elapsed time is not modelled: a timeout firing is one abstract step.
 */
module Typing {
  import opened Optional

  /** The delay used when the parent passes no `speed`. */
  const DefaultSpeed: int := 100

  /** A callback prop, known only by its identity: React compares functions by reference. */
  type CallbackId = nat

  /**
   * The component measures and indexes `text` in UTF-16 code units, the model
   * in characters: a character outside the Basic Multilingual Plane is two
   * code units, so the component types it in two timeouts.
   */
  function Utf16Length(s: string): nat
    decreases |s|
  {
    if s == [] then 0 else (if s[0] as int < 0x1_0000 then 1 else 2) + Utf16Length(s[1..])
  }

  /** Every character of `s` is a single UTF-16 code unit. */
  predicate OneCodeUnitEach(s: string) {
    forall c :: c in s ==> c as int < 0x1_0000
  }

  /** For such a text the component's `text.length` is the model's `|text|`, so the tick counts agree. */
  lemma {:induction false} Utf16LengthOneUnitEach(s: string)
    requires OneCodeUnitEach(s)
    ensures Utf16Length(s) == |s|
    decreases |s|
  {
    if s != [] {
      assert s[0] in s;
      assert forall c :: c in s[1..] ==> c in s;
      Utf16LengthOneUnitEach(s[1..]);
    }
  }

  class TypingEffect {
    // props
    var text: string
    var speed: int
    var onComplete: Option<CallbackId>

    // state cells
    var displayText: string
    var currentIndex: nat

    // the timeout scheduled by the latest effect run, and what its closure captured
    var pending: bool
    var pendingText: string
    var pendingIndex: nat

    var mounted: bool
    /** How many times `onComplete` has been invoked so far. */
    var completions: nat

    /**
     * The invariant that holds whatever props the parent passes: each tick
     * grows both cells by one, a pending timeout always captured the current
     * props and state, and a mounted effect has a timeout pending exactly
     * while characters remain.
     */
    ghost predicate Valid()
      reads this
    {
      && |displayText| == currentIndex
      && (pending ==> mounted && pendingText == text && pendingIndex == currentIndex < |text|)
      && (mounted ==> (pending <==> currentIndex < |text|))
    }

    /** What is on screen is exactly the first `currentIndex` characters of `text`. */
    ghost predicate Coherent()
      reads this
    {
      currentIndex <= |text| && displayText == text[..currentIndex]
    }

    /** Mounting: both cells start empty, `speed` defaults to 100, and the effect runs once. */
    constructor (text: string, speed: Option<int>, onComplete: Option<CallbackId>)
      ensures Valid() && Coherent() && mounted
      ensures this.text == text && this.onComplete == onComplete
      ensures this.speed == (if speed.Some? then speed.value else DefaultSpeed)
      ensures displayText == "" && currentIndex == 0
      ensures pending <==> text != ""
      ensures completions == if text == "" && onComplete.Some? then 1 else 0
    {
      this.text := text;
      this.speed := speed.GetOr(DefaultSpeed);
      this.onComplete := onComplete;
      displayText := "";
      currentIndex := 0;
      pending := false;
      pendingText := "";
      pendingIndex := 0;
      mounted := true;
      completions := 0;
      new;
      RunEffect();
    }

    /** One run of the effect body: schedule the next character or signal completion. */
    method RunEffect()
      requires mounted && |displayText| == currentIndex
      modifies this
      ensures Valid() && mounted
      ensures text == old(text) && speed == old(speed) && onComplete == old(onComplete)
      ensures displayText == old(displayText) && currentIndex == old(currentIndex)
      ensures pending <==> currentIndex < |text|
      ensures completions == old(completions) + if !pending && onComplete.Some? then 1 else 0
    {
      if currentIndex < |text| {
        pending, pendingText, pendingIndex := true, text, currentIndex;
      } else {
        pending := false;
        if onComplete.Some? {
          completions := completions + 1;
        }
      }
    }

    /**
     * The pending timeout fires: exactly one character, the one at the
     * captured index, is appended and the index advances by one; the effect
     * then re-runs because `currentIndex` changed.
     */
    method Tick()
      requires Valid() && pending
      modifies this
      ensures Valid() && mounted
      ensures text == old(text) && speed == old(speed) && onComplete == old(onComplete)
      ensures displayText == old(displayText) + [old(text)[old(currentIndex)]]
      ensures currentIndex == old(currentIndex) + 1 <= |text|
      ensures old(Coherent()) ==> Coherent()
      ensures pending <==> currentIndex < |text|
      ensures completions == old(completions) + if currentIndex == |text| && onComplete.Some? then 1 else 0
    {
      displayText := displayText + [pendingText[pendingIndex]];
      currentIndex := currentIndex + 1;
      pending := false;
      RunEffect();
    }

    /**
     * The parent re-renders with the given props. When any dependency of the
     * effect changed, the cleanup cancels the pending timeout and the effect
     * runs again; the state cells are never reset.
     */
    method Update(newText: string, newSpeed: Option<int>, newOnComplete: Option<CallbackId>)
      requires Valid() && mounted
      modifies this
      ensures Valid() && mounted
      ensures text == newText && onComplete == newOnComplete
      ensures speed == (if newSpeed.Some? then newSpeed.value else DefaultSpeed)
      ensures displayText == old(displayText) && currentIndex == old(currentIndex)
      ensures pending <==> currentIndex < |newText|
      ensures completions == old(completions) +
        if (newText, speed, newOnComplete) != old((text, speed, onComplete))
           && currentIndex >= |newText| && newOnComplete.Some?
        then 1 else 0
      ensures Coherent() <==> displayText <= newText
    {
      var s := newSpeed.GetOr(DefaultSpeed);
      if (newText, s, newOnComplete) != (text, speed, onComplete) {
        pending := false;
        text, speed, onComplete := newText, s, newOnComplete;
        RunEffect();
      }
      assert Coherent() <==> displayText <= newText by {
        if displayText <= newText {
          assert displayText == newText[..currentIndex];
        }
      }
    }

    /** Unmounting runs the cleanup: the pending timeout is cancelled, so no character is appended afterwards. */
    method Unmount()
      requires Valid()
      modifies this
      ensures Valid() && !mounted && !pending
      ensures text == old(text) && speed == old(speed) && onComplete == old(onComplete)
      ensures displayText == old(displayText) && currentIndex == old(currentIndex)
      ensures completions == old(completions)
    {
      pending := false;
      mounted := false;
    }
  }

  /**
   * Lets every scheduled timeout fire, one after another, until none is
   * pending; `ticks` counts the timeouts that fired.
   */
  method RunUntilIdle(t: TypingEffect) returns (ticks: nat)
    requires t.Valid() && t.mounted
    modifies t
    ensures t.Valid() && t.mounted && !t.pending
    ensures t.text == old(t.text) && t.speed == old(t.speed) && t.onComplete == old(t.onComplete)
    ensures old(t.currentIndex) < |t.text| ==>
      && t.displayText == old(t.displayText) + t.text[old(t.currentIndex)..]
      && t.currentIndex == |t.text|
      && ticks == |t.text| - old(t.currentIndex)
      && t.completions == old(t.completions) + if t.onComplete.Some? then 1 else 0
    ensures old(t.currentIndex) >= |t.text| ==>
      && t.displayText == old(t.displayText) && t.currentIndex == old(t.currentIndex)
      && ticks == 0 && t.completions == old(t.completions)
  {
    ticks := 0;
    ghost var start := t.currentIndex;
    while t.pending
      invariant t.Valid() && t.mounted
      invariant t.text == old(t.text) && t.speed == old(t.speed) && t.onComplete == old(t.onComplete)
      invariant start < |t.text| ==> start <= t.currentIndex <= |t.text|
      invariant start < |t.text| ==> t.displayText == old(t.displayText) + t.text[start..t.currentIndex]
      invariant start >= |t.text| ==> t.displayText == old(t.displayText)
      invariant t.currentIndex == start + ticks
      invariant t.completions == old(t.completions) +
        if start < |t.text| && !t.pending && t.onComplete.Some? then 1 else 0
      decreases |t.text| - t.currentIndex
    {
      t.Tick();
      ticks := ticks + 1;
      assert t.text[start..t.currentIndex] == t.text[start..t.currentIndex - 1] + [t.text[t.currentIndex - 1]];
    }
  }

  /**
   * A component mounted with `text` and left alone: once the timeouts stop,
   * the whole text is shown, exactly `|text|` timeouts fired, and
   * `onComplete` (when passed) was invoked once -- with no timeout at all for
   * the empty text.
   */
  method RevealAll(text: string, speed: Option<int>, onComplete: Option<CallbackId>)
    returns (shown: string, ticks: nat, completions: nat)
    ensures shown == text
    ensures ticks == |text|
    ensures completions == if onComplete.Some? then 1 else 0
  {
    var t := new TypingEffect(text, speed, onComplete);
    ticks := RunUntilIdle(t);
    shown, completions := t.displayText, t.completions;
  }

  /**
   * After typing is complete, every re-render that passes a new `onComplete`
   * identity re-runs the effect, which invokes the callback again: with
   * `|callbacks|` distinct consecutive identities the callback runs
   * `|callbacks|` times, not once.
   */
  method RerenderAfterCompletion(text: string, callbacks: seq<CallbackId>) returns (completions: nat)
    requires |callbacks| > 0
    requires forall i :: 0 < i < |callbacks| ==> callbacks[i] != callbacks[i - 1]
    ensures completions == |callbacks|
  {
    var t := new TypingEffect(text, None, Some(callbacks[0]));
    var _ := RunUntilIdle(t);
    var i := 1;
    while i < |callbacks|
      invariant 1 <= i <= |callbacks|
      invariant t.Valid() && t.mounted && !t.pending
      invariant t.text == text && t.speed == DefaultSpeed && t.onComplete == Some(callbacks[i - 1])
      invariant t.currentIndex >= |text|
      invariant t.completions == i
    {
      t.Update(text, None, Some(callbacks[i]));
      i := i + 1;
    }
    completions := t.completions;
  }

  /**
   * The `text` prop changes after `k` characters of `t1` were typed: the
   * state is not reset, so what ends up on screen is the typed prefix of
   * `t1` followed by the rest of `t2` -- which is `t2` only when the two
   * texts agree on their first `k` characters.
   */
  method ChangeTextMidway(t1: string, k: nat, t2: string) returns (shown: string)
    requires k <= |t1|
    ensures shown == t1[..k] + (if k <= |t2| then t2[k..] else "")
    ensures k <= |t2| ==> (shown == t2 <==> t1[..k] == t2[..k])
  {
    var t := new TypingEffect(t1, None, None);
    var i := 0;
    while i < k
      invariant 0 <= i <= k
      invariant t.Valid() && t.Coherent() && t.mounted
      invariant t.text == t1 && t.onComplete == None && t.speed == DefaultSpeed
      invariant t.currentIndex == i
    {
      t.Tick();
      i := i + 1;
    }
    assert t.displayText == t1[..k];
    t.Update(t2, None, None);
    var _ := RunUntilIdle(t);
    shown := t.displayText;
    if k <= |t2| {
      assert t2 == t2[..k] + t2[k..];
    }
  }
}
