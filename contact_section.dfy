/**
 * The contact section's connection state machine: `idle`, then `connecting`
 * once the connect button is pressed, then `connected` when the connect
 * timer fires, at which point the contact options are shown.
 */
module Contact {
  import opened Optional
  import opened Typing

  datatype Status = Idle | Connecting | Connected

  /** Position of a status along the only path the section can take. */
  function Rank(s: Status): nat {
    match s
    case Idle => 0
    case Connecting => 1
    case Connected => 2
  }

  /** The two state changes there are: the button press and the timer. */
  predicate Transition(a: Status, b: Status) {
    (a == Idle && b == Connecting) || (a == Connecting && b == Connected)
  }

  /** Each transition moves exactly one step forward. */
  lemma TransitionAdvances(a: Status, b: Status)
    requires Transition(a, b)
    ensures Rank(b) == Rank(a) + 1
  {
  }

  /** Consecutive statuses of `trace` are related by `Transition`. */
  predicate IsTrace(trace: seq<Status>) {
    forall i :: 0 <= i < |trace| - 1 ==> Transition(trace[i], trace[i + 1])
  }

  /**
   * Along any sequence of transitions the rank grows by one per step, so
   * no status is ever revisited and there are at most three statuses in a row.
   */
  lemma {:induction false} TraceNeverRevisits(trace: seq<Status>)
    requires IsTrace(trace)
    ensures forall i :: 0 <= i < |trace| ==> Rank(trace[i]) == Rank(trace[0]) + i
    ensures forall i, j :: 0 <= i < j < |trace| ==> trace[i] != trace[j]
    ensures |trace| <= 3
    decreases |trace|
  {
    if |trace| > 1 {
      TraceNeverRevisits(trace[1..]);
      TransitionAdvances(trace[0], trace[1]);
      forall i | 1 <= i < |trace| ensures Rank(trace[i]) == Rank(trace[0]) + i {
        assert trace[i] == trace[1..][i - 1];
      }
      assert Rank(trace[|trace| - 1]) <= 2;
    }
  }

  /** The three status message groups, in page order, each rendered only for its own status. */
  function StatusGroups(s: Status): (groups: seq<Status>)
    ensures groups == [s]
  {
    (if s == Idle then [Idle] else [])
    + (if s == Connecting then [Connecting] else [])
    + (if s == Connected then [Connected] else [])
  }

  /** What the section renders besides its static header and footer. */
  datatype Element = ConnectButton | ConnectingIndicator | ContactGrid | HelpTerminal

  /**
   * The button only in `idle`, the connecting indicator only while
   * `connecting`, the contact options and the help terminal with `showTerminal`.
   */
  function Rendered(s: Status, showTerminal: bool): (r: set<Element>)
    ensures ConnectButton in r <==> s == Idle
    ensures ConnectingIndicator in r <==> s == Connecting
    ensures ContactGrid in r <==> showTerminal
    ensures HelpTerminal in r <==> showTerminal
  {
    (if s == Idle then {ConnectButton} else {})
    + (if s == Connecting then {ConnectingIndicator} else {})
    + (if showTerminal then {ContactGrid, HelpTerminal} else {})
  }

  /** The text typed by the connecting indicator, at 50 ms per character. */
  const ConnectingText: string := "Connecting to secure network..."

  lemma ConnectingTextInBmp() ensures OneCodeUnitEach(ConnectingText) {}

  /** The indicator's text lies in the Basic Multilingual Plane (it is ASCII), so the component counts it in code units exactly as the model counts characters. */
  lemma ConnectingTextLength()
    ensures Utf16Length(ConnectingText) == |ConnectingText|
  {
    ConnectingTextInBmp();
    Utf16LengthOneUnitEach(ConnectingText);
  }

  datatype ContactLink = ContactLink(name: string, url: string, color: string)

  const Contacts: seq<ContactLink> := [
    ContactLink("GitHub", "https://github.com", "cyber-green"),
    ContactLink("LinkedIn", "https://linkedin.com", "cyber-cyan"),
    ContactLink("Email", "mailto:contact@cyberport.dev", "cyber-purple"),
    ContactLink("Discord", "https://discord.com", "cyber-pink")
  ]

  /** No two contacts share a name (names are React list keys). */
  predicate NamesDistinct(cs: seq<ContactLink>) {
    forall i, j :: 0 <= i < j < |cs| ==> cs[i].name != cs[j].name
  }

  lemma ContactTable()
    ensures |Contacts| == 4 && NamesDistinct(Contacts)
  {
    assert Contacts[0].name[0] == 'G' && Contacts[1].name[0] == 'L';
    assert Contacts[2].name[0] == 'E' && Contacts[3].name[0] == 'D';
  }

  /** The section's state cells, the connect timer, and the connecting indicator's typing effect. */
  class ContactSection {
    var connectionStatus: Status
    var showTerminal: bool
    /** The 2000 ms connect timeout is scheduled and has not fired. */
    var timerPending: bool
    /** The typing effect inside the connecting indicator, once it has been mounted. */
    var indicator: TypingEffect?

    /**
     * The timer is pending exactly while `connecting`; `showTerminal`
     * holds exactly when `connected`; the indicator's typing effect is
     * mounted exactly while `connecting`, and is torn down afterwards.
     */
    ghost predicate Valid()
      reads this, indicator
    {
      && (timerPending <==> connectionStatus == Connecting)
      && (showTerminal <==> connectionStatus == Connected)
      && (connectionStatus == Idle <==> indicator == null)
      && (indicator != null ==>
            && indicator.Valid() && indicator.Coherent()
            && indicator.text == ConnectingText && indicator.onComplete == None
            && (indicator.mounted <==> connectionStatus == Connecting))
    }

    constructor ()
      ensures Valid()
      ensures connectionStatus == Idle && !showTerminal && !timerPending
    {
      connectionStatus := Idle;
      showTerminal := false;
      timerPending := false;
      indicator := null;
    }

    /** `handleConnect`, reachable only from the button, which is rendered only in `idle`. */
    method HandleConnect()
      requires Valid() && ConnectButton in Rendered(connectionStatus, showTerminal)
      modifies this
      ensures Valid() && fresh(indicator)
      ensures Transition(old(connectionStatus), connectionStatus)
      ensures connectionStatus == Connecting && timerPending && !showTerminal
      ensures indicator.displayText == "" && indicator.speed == 50
    {
      connectionStatus := Connecting;
      timerPending := true;
      indicator := new TypingEffect(ConnectingText, Some(50), None);
    }

    /** A timeout of the indicator's typing effect fires while it is on screen. */
    method IndicatorTick()
      requires Valid() && indicator != null && indicator.pending
      modifies indicator
      ensures Valid()
      ensures connectionStatus == old(connectionStatus) && showTerminal == old(showTerminal)
      ensures indicator.currentIndex == old(indicator.currentIndex) + 1
    {
      indicator.Tick();
    }

    /**
     * The connect timer fires: `connected` and `showTerminal` are set in
     * the same step, and the indicator leaving the page cancels its typing.
     */
    method ConnectTimerFires()
      requires Valid() && timerPending
      modifies this, indicator
      ensures Valid()
      ensures Transition(old(connectionStatus), connectionStatus)
      ensures connectionStatus == Connected && showTerminal && !timerPending
      ensures indicator == old(indicator) && !indicator.mounted && !indicator.pending
      ensures indicator.displayText == old(indicator.displayText)
    {
      connectionStatus := Connected;
      showTerminal := true;
      timerPending := false;
      indicator.Unmount();
    }
  }

  /**
   * The whole connection flow: press the button, let `k` characters of the
   * indicator type, then the timer fires. The contact options appear with
   * `connected`, the statuses passed form a trace, and the indicator shows
   * a prefix of its text that no longer grows.
   */
  method ConnectFlow(k: nat) returns (trace: seq<Status>, shownInIndicator: string, elements: set<Element>)
    requires k <= |ConnectingText|
    ensures trace == [Idle, Connecting, Connected] && IsTrace(trace)
    ensures shownInIndicator == ConnectingText[..k]
    ensures elements == {ContactGrid, HelpTerminal}
  {
    var view := new ContactSection();
    trace := [view.connectionStatus];
    view.HandleConnect();
    trace := trace + [view.connectionStatus];
    var i := 0;
    while i < k
      invariant 0 <= i <= k
      invariant view.Valid() && view.connectionStatus == Connecting && view.indicator != null
      invariant view.indicator.currentIndex == i
      invariant fresh(view.indicator)
    {
      view.IndicatorTick();
      i := i + 1;
    }
    view.ConnectTimerFires();
    trace := trace + [view.connectionStatus];
    shownInIndicator := view.indicator.displayText;
    elements := Rendered(view.connectionStatus, view.showTerminal);
  }
}
