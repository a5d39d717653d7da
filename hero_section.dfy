/**
 * The hero section's reveal chain: three flags, each set to true by the
 * completion callback of one typing effect, where the effect that sets a
 * flag is only on screen once the previous flag is true.
 */
module Hero {
  import opened Optional
  import opened Typing

  const AccessText: string := "access granted... initializing portfolio..."
  const TitleText: string := "Software & Cybersecurity Engineer"
  const SubtitleText: string := "Web3 | Full-stack | Security | UI/UX"

  datatype Flags = Flags(showTitle: bool, showSubtitle: bool, showButtons: bool)

  // Each text's characters are checked in a lemma of its own, which keeps each proof small.
  lemma AccessTextInBmp() ensures OneCodeUnitEach(AccessText) {}
  lemma TitleTextInBmp() ensures OneCodeUnitEach(TitleText) {}
  lemma SubtitleTextInBmp() ensures OneCodeUnitEach(SubtitleText) {}

  /** The three texts lie in the Basic Multilingual Plane (they are ASCII), so the component counts them in code units exactly as the model counts characters. */
  lemma HeroTextLengths()
    ensures Utf16Length(AccessText) == |AccessText|
    ensures Utf16Length(TitleText) == |TitleText|
    ensures Utf16Length(SubtitleText) == |SubtitleText|
  {
    AccessTextInBmp();
    Utf16LengthOneUnitEach(AccessText);
    TitleTextInBmp();
    Utf16LengthOneUnitEach(TitleText);
    SubtitleTextInBmp();
    Utf16LengthOneUnitEach(SubtitleText);
  }

  /** All three flags start false. */
  const Initial: Flags := Flags(false, false, false)

  /** The typing effect whose `onComplete` fired. */
  datatype Reveal = AccessTyped | TitleTyped | SubtitleTyped

  /** The typing effect behind `e` is on screen: the title's only once `showTitle`, the subtitle's only once `showSubtitle`. */
  predicate Mounted(f: Flags, e: Reveal) {
    match e
    case AccessTyped => true
    case TitleTyped => f.showTitle
    case SubtitleTyped => f.showSubtitle
  }

  /** The state update made by the callback of `e`: one flag set to true. */
  function Step(f: Flags, e: Reveal): Flags {
    match e
    case AccessTyped => f.(showTitle := true)
    case TitleTyped => f.(showSubtitle := true)
    case SubtitleTyped => f.(showButtons := true)
  }

  /** Buttons imply subtitle, subtitle implies title. */
  predicate Chain(f: Flags) {
    (f.showButtons ==> f.showSubtitle) && (f.showSubtitle ==> f.showTitle)
  }

  /** Every flag of `f` that is true is true in `g` as well. */
  predicate Below(f: Flags, g: Flags) {
    (f.showTitle ==> g.showTitle) && (f.showSubtitle ==> g.showSubtitle) && (f.showButtons ==> g.showButtons)
  }

  /** The flags after the callbacks `es` fired in order. */
  function Run(f: Flags, es: seq<Reveal>): Flags
    decreases |es|
  {
    if es == [] then f else Run(Step(f, es[0]), es[1..])
  }

  /** Every callback in `es` came from an effect that was on screen when it fired. */
  predicate Feasible(f: Flags, es: seq<Reveal>)
    decreases |es|
  {
    es == [] || (Mounted(f, es[0]) && Feasible(Step(f, es[0]), es[1..]))
  }

  /** A callback fired from a mounted effect keeps the chain. */
  lemma StepKeepsChain(f: Flags, e: Reveal)
    requires Chain(f) && Mounted(f, e)
    ensures Chain(Step(f, e))
    ensures Below(f, Step(f, e))
  {
  }

  /** A callback that fires again (as on every re-render once its text is complete) changes nothing. */
  lemma StepIdempotent(f: Flags, e: Reveal)
    ensures Step(Step(f, e), e) == Step(f, e)
  {
  }

  /** Any feasible sequence of callbacks keeps the chain, and flags only ever go from false to true. */
  lemma {:induction false} RunKeepsChain(f: Flags, es: seq<Reveal>)
    requires Chain(f) && Feasible(f, es)
    ensures Chain(Run(f, es))
    ensures Below(f, Run(f, es))
    decreases |es|
  {
    if es != [] {
      StepKeepsChain(f, es[0]);
      RunKeepsChain(Step(f, es[0]), es[1..]);
    }
  }

  /**
   * Each flag is set by its own callback and by nothing else: after `es` a
   * flag is true exactly when it already was or the matching callback fired.
   */
  lemma {:induction false} RunSetsOnlyByCallback(f: Flags, es: seq<Reveal>)
    ensures Run(f, es).showTitle <==> f.showTitle || AccessTyped in es
    ensures Run(f, es).showSubtitle <==> f.showSubtitle || TitleTyped in es
    ensures Run(f, es).showButtons <==> f.showButtons || SubtitleTyped in es
    decreases |es|
  {
    if es != [] {
      RunSetsOnlyByCallback(Step(f, es[0]), es[1..]);
      assert es == [es[0]] + es[1..];
    }
  }

  /** From the initial flags, the buttons appear only once all three typing effects have completed. */
  lemma ButtonsNeedAllThree(es: seq<Reveal>)
    requires Feasible(Initial, es)
    ensures Run(Initial, es).showButtons ==> AccessTyped in es && TitleTyped in es && SubtitleTyped in es
  {
    RunKeepsChain(Initial, es);
    RunSetsOnlyByCallback(Initial, es);
  }

  /** What the section puts on screen besides its decoration. */
  datatype Element = AccessLine | TitleBlock | SubtitleBlock | ActionButtons | ScrollIndicator

  /**
   * The elements rendered for flags `f`. The access message is always
   * there; the buttons and the scroll indicator appear together, exactly
   * when `showButtons` holds.
   */
  function Rendered(f: Flags): (r: set<Element>)
    ensures AccessLine in r
    ensures TitleBlock in r <==> f.showTitle
    ensures SubtitleBlock in r <==> f.showSubtitle
    ensures ActionButtons in r <==> f.showButtons
    ensures ScrollIndicator in r <==> f.showButtons
  {
    {AccessLine}
    + (if f.showTitle then {TitleBlock} else {})
    + (if f.showSubtitle then {SubtitleBlock} else {})
    + (if f.showButtons then {ActionButtons} else {})
    + (if f.showButtons then {ScrollIndicator} else {})
  }

  /** Nothing that is on screen ever disappears: rendering grows with the flags. */
  lemma RenderedGrows(f: Flags, es: seq<Reveal>)
    requires Chain(f) && Feasible(f, es)
    ensures Rendered(f) <= Rendered(Run(f, es))
  {
    RunKeepsChain(f, es);
  }

  /** The section's three state cells. */
  class HeroSection {
    var showTitle: bool
    var showSubtitle: bool
    var showButtons: bool

    function Current(): Flags
      reads this
    {
      Flags(showTitle, showSubtitle, showButtons)
    }

    constructor ()
      ensures Current() == Initial
    {
      showTitle, showSubtitle, showButtons := false, false, false;
    }

    /** The `onComplete` callback of the typing effect `e`, which can only fire while that effect is on screen. */
    method Complete(e: Reveal)
      requires Mounted(Current(), e)
      modifies this
      ensures Current() == Step(old(Current()), e)
      ensures old(Chain(Current())) ==> Chain(Current())
    {
      match e
      case AccessTyped => showTitle := true;
      case TitleTyped => showSubtitle := true;
      case SubtitleTyped => showButtons := true;
    }
  }

  /**
   * The section left to play from mount: the access message types out,
   * which shows the title; its typing effect then types and shows the
   * subtitle, whose typing effect shows the buttons. The buttons are on
   * screen after exactly as many timeouts as the three texts have
   * characters.
   */
  method PlayHero() returns (flags: Flags, ticks: nat)
    ensures Chain(flags) && ActionButtons in Rendered(flags)
    ensures ticks == |AccessText| + |TitleText| + |SubtitleText|
  {
    var hero := new HeroSection();
    var _, n1, c1 := RevealAll(AccessText, Some(80), Some(0));
    assert c1 == 1;
    hero.Complete(AccessTyped);
    var _, n2, c2 := RevealAll(TitleText, Some(100), Some(1));
    assert c2 == 1;
    hero.Complete(TitleTyped);
    var _, n3, c3 := RevealAll(SubtitleText, Some(80), Some(2));
    assert c3 == 1;
    hero.Complete(SubtitleTyped);
    ticks := n1 + n2 + n3;
    flags := hero.Current();
  }
}
