/**
 * The verdict page of the negotiation client (negotiate/src/pages/VerdictPage.tsx): it polls
 * the negotiation until its verdict arrives, counting timer ticks, and shows a progress
 * indicator and one of five views. The timer and the query library are replaced by discrete
 * events: a timer tick, a successful fetch, a click on "Try Again" or "Check Again".
 */
module VerdictPage {
  import opened Wrappers

  const LoadingTexts: seq<string> := [
    "Initializing analysis...",
    "Processing negotiation data...",
    "Applying AI models...",
    "Evaluating negotiation strategies...",
    "Identifying key points...",
    "Generating verdict..."
  ]

  /** Polling gives up after twelve ticks (sixty seconds at five seconds a tick). */
  const MaxPolls: nat := 12

  /** `Math.min(Math.floor(n / 2), loadingTexts.length - 1)`: a new text every two ticks, the last from ten on. */
  function TextIndex(n: nat): (k: nat)
    ensures k < |LoadingTexts|
    ensures 2 * k <= n
    ensures k < |LoadingTexts| - 1 ==> n < 2 * k + 2
    ensures k == |LoadingTexts| - 1 <==> n >= 2 * (|LoadingTexts| - 1)
  {
    if n / 2 < |LoadingTexts| - 1 then n / 2 else |LoadingTexts| - 1
  }

  datatype PollState = PollState(retryCount: nat, isPolling: bool, loadingText: string)

  /** The three `useState` initial values. */
  function Initial(): PollState {
    PollState(0, true, LoadingTexts[0])
  }

  /**
   * The states the page can be in: the count never passes the limit, a polling page is below
   * it, and the text is one of the six.
   */
  predicate Valid(s: PollState) {
    s.retryCount <= MaxPolls && (s.isPolling ==> s.retryCount < MaxPolls) && s.loadingText in LoadingTexts
  }

  /**
   * The timer effect. It only schedules a timer while polling; when it fires, the count goes
   * up by one, the text follows the new count, and polling stops once the count reaches 12.
   */
  function Tick(s: PollState): (r: PollState)
    ensures !s.isPolling ==> r == s
    ensures s.isPolling ==> r.retryCount == s.retryCount + 1 && r.loadingText == LoadingTexts[TextIndex(r.retryCount)]
    ensures s.isPolling ==> (r.isPolling <==> r.retryCount < MaxPolls)
    ensures Valid(s) ==> Valid(r)
  {
    if !s.isPolling then s
    else
      var n := s.retryCount + 1;
      PollState(n, n < MaxPolls, LoadingTexts[TextIndex(n)])
  }

  /**
   * `onSuccess`: polling stops when the negotiation is completed with a verdict, or else when
   * the count has reached 12; nothing else changes.
   */
  function OnSuccess(s: PollState, status: string, hasVerdict: bool): (r: PollState)
    ensures r.retryCount == s.retryCount && r.loadingText == s.loadingText
    ensures !r.isPolling <==> !s.isPolling || (status == "completed" && hasVerdict) || s.retryCount >= MaxPolls
    ensures Valid(s) ==> Valid(r)
  {
    if status == "completed" && hasVerdict then s.(isPolling := false)
    else if s.retryCount >= MaxPolls then s.(isPolling := false)
    else s
  }

  /** "Try Again" and "Check Again": the count back to 0 and polling on; the text stays. */
  function Reset(s: PollState): (r: PollState)
    ensures r.retryCount == 0 && r.isPolling && r.loadingText == s.loadingText
    ensures Valid(s) ==> Valid(r)
  {
    PollState(0, true, s.loadingText)
  }

  lemma InitialValid()
    ensures Valid(Initial()) && Initial().retryCount == 0 && Initial().isPolling
    ensures Initial().loadingText == "Initializing analysis..."
  {
  }

  /** `k` timer ticks with no other event in between. */
  function Ticks(s: PollState, k: nat): PollState
    decreases k
  {
    if k == 0 then s else Tick(Ticks(s, k - 1))
  }

  /**
   * From the start, or right after a reset, `k` ticks leave the count at `min(k, 12)`, still
   * polling only below twelve ticks, with the text of the final count.
   */
  lemma {:induction false} TicksFromStart(s: PollState, k: nat)
    requires s.retryCount == 0 && s.isPolling
    ensures Ticks(s, k).retryCount == if k < MaxPolls then k else MaxPolls
    ensures Ticks(s, k).isPolling <==> k < MaxPolls
    ensures k > 0 ==> Ticks(s, k).loadingText == LoadingTexts[TextIndex(Ticks(s, k).retryCount)]
    decreases k
  {
    if k > 0 {
      TicksFromStart(s, k - 1);
    }
  }

  /** Once polling has stopped, further ticks change nothing: at most twelve ticks per run. */
  lemma {:induction false} StoppedStaysStopped(s: PollState, k: nat)
    requires !s.isPolling
    ensures Ticks(s, k) == s
    decreases k
  {
    if k > 0 {
      StoppedStaysStopped(s, k - 1);
    }
  }

  /** The page's poll state: the three fields the timer, the query callback and the buttons set. */
  class VerdictPoll {
    var retryCount: nat
    var isPolling: bool
    var loadingText: string

    function State(): PollState
      reads this
    {
      PollState(retryCount, isPolling, loadingText)
    }

    constructor ()
      ensures State() == Initial()
    {
      retryCount := 0;
      isPolling := true;
      loadingText := "Initializing analysis...";
    }

    method TimerFires()
      modifies this
      ensures State() == Tick(old(State()))
    {
      if isPolling {
        var newCount := retryCount + 1;
        loadingText := LoadingTexts[TextIndex(newCount)];
        if newCount >= MaxPolls {
          isPolling := false;
        }
        retryCount := newCount;
      }
    }

    method FetchSucceeded(status: string, hasVerdict: bool)
      modifies this
      ensures State() == OnSuccess(old(State()), status, hasVerdict)
    {
      if status == "completed" && hasVerdict {
        isPolling := false;
      } else if retryCount >= MaxPolls {
        isPolling := false;
      }
    }

    /** The "Try Again" and "Check Again" buttons (the refetch they also start is a fetch event). */
    method Retry()
      modifies this
      ensures State() == Reset(old(State()))
    {
      retryCount := 0;
      isPolling := true;
    }
  }

  /**
   * The percentage in the spinner, `Math.min(Math.round((n / 12) * 100), 100)`, in integers:
   * `Math.round(x)` is `floor(x + 1/2)`, and `100 n / 12` is never halfway between two integers.
   */
  function Percent(n: nat): (p: nat)
    ensures p <= 100
    ensures n >= MaxPolls ==> p == 100
    ensures n < MaxPolls ==>
      (p as real) - 0.5 <= (n as real) * 100.0 / (MaxPolls as real) < (p as real) + 0.5
  {
    var rounded := (100 * n + MaxPolls / 2) / MaxPolls;
    if rounded < 100 then rounded else 100
  }

  /** The width of the progress bar in percent, `Math.min((n / 12) * 100, 100)`. */
  function BarWidth(n: nat): (w: real)
    ensures 0.0 <= w <= 100.0
    ensures w == 100.0 <==> n >= MaxPolls
    ensures n < MaxPolls ==> w * (MaxPolls as real) == (n as real) * 100.0
  {
    var x := (n as real) * 100.0 / (MaxPolls as real);
    if x < 100.0 then x else 100.0
  }

  /** The spinner's number is the bar's width rounded to the nearest integer. */
  lemma PercentNearWidth(n: nat)
    ensures (Percent(n) as real) - 0.5 <= BarWidth(n) < (Percent(n) as real) + 0.5
  {
    if n < MaxPolls {
      assert BarWidth(n) == (n as real) * 100.0 / (MaxPolls as real);
    }
  }

  /** "Try Again" is offered from twelve ticks on. */
  predicate TryAgainShown(s: PollState) {
    s.retryCount >= MaxPolls
  }

  /** In every reachable state, "Try Again" appears only after polling has stopped. */
  lemma TryAgainOnlyWhenStopped(s: PollState)
    requires Valid(s) && TryAgainShown(s)
    ensures !s.isPolling && s.retryCount == MaxPolls
  {
  }

  /** The fetched negotiation as the views test it: its status and whether its verdict is truthy. */
  datatype Negotiation = Negotiation(status: string, hasVerdict: bool)

  datatype View = Loading | Failed | CompletedWithoutVerdict | NotCompleted | VerdictShown

  /** The cascade of early returns in the component's body. */
  function SelectView(isLoading: bool, isPolling: bool, isError: bool, negotiation: Option<Negotiation>): (v: View)
    ensures v == Loading <==> isLoading || (isPolling && (negotiation.None? || !negotiation.value.hasVerdict))
    ensures v == Failed <==> v != Loading && (isError || negotiation.None?)
    ensures v == CompletedWithoutVerdict <==>
      !isLoading && !isPolling && !isError && negotiation.Some?
      && negotiation.value.status == "completed" && !negotiation.value.hasVerdict
    ensures v == NotCompleted <==>
      !isLoading && !isError && negotiation.Some? && negotiation.value.status != "completed"
      && (negotiation.value.hasVerdict || !isPolling)
    ensures v == VerdictShown <==>
      !isLoading && !isError && negotiation.Some? && negotiation.value.status == "completed" && negotiation.value.hasVerdict
  {
    if isLoading || (isPolling && (negotiation.None? || !negotiation.value.hasVerdict)) then Loading
    else if isError || negotiation.None? then Failed
    else if negotiation.value.status == "completed" && !negotiation.value.hasVerdict then CompletedWithoutVerdict
    else if negotiation.value.status != "completed" then NotCompleted
    else VerdictShown
  }

  /** A verdict on a negotiation whose status is not 'completed' is never shown. */
  lemma VerdictNeedsCompletion(isLoading: bool, isPolling: bool, isError: bool, status: string)
    requires !isLoading && !isError && status != "completed"
    ensures SelectView(isLoading, isPolling, isError, Some(Negotiation(status, true))) == NotCompleted
  {
  }

  /** A successful fetch of a completed negotiation with its verdict ends the spinner. */
  lemma CompletedFetchShowsVerdict(s: PollState, isError: bool)
    requires !isError
    ensures SelectView(false, OnSuccess(s, "completed", true).isPolling, isError,
                       Some(Negotiation("completed", true))) == VerdictShown
  {
  }
}
