/**
 * The full camera page (my-app/app/camera/page.tsx): the message effect that
 * swaps the image's object URL and reads `viewers` from JSON text, and the
 * start/stop toggle whose `isStreaming` flag flips only once the request
 * resolves and whose failure sets a sticky error.
 */
module CameraPage {
  import opened Wrappers
  import opened CameraClient

  const ToggleError := "Failed to toggle stream."

  datatype PageState = PageState(img: Img, viewerCount: int, isStreaming: bool, error: Option<string>)

  function Initial(mounted: bool): PageState {
    PageState(Blank(mounted), 0, false, None)
  }

  /** The viewer count a message reports: only non-empty text that parses to
      an object with a defined `viewers` field reports one. */
  function Reported(m: Message): Option<int> {
    match m
    case TextData(text, JsonObject(Some(v))) => if text != "" then Some(v) else None
    case _ => None
  }

  /** The message effect. */
  function AfterMessage(s: PageState, m: Message): PageState {
    var count := Reported(m);
    s.(img := ShowFrame(s.img, m), viewerCount := if count.Some? then count.value else s.viewerCount)
  }

  /** The end of `toggleStream`: a resolved fetch (any status) sets the flag to
      the negation of the value the click closed over; a thrown one sets the error. */
  function AfterToggle(s: PageState, req: ToggleRequest, outcome: FetchOutcome): PageState {
    match outcome
    case Resolved(_) => s.(isStreaming := !req.captured)
    case Threw => s.(error := Some(ToggleError))
  }

  function Apply(s: PageState, e: Event): PageState {
    match e
    case Incoming(m) => AfterMessage(s, m)
    case ToggleSettled(req, outcome) => AfterToggle(s, req, outcome)
  }

  function Run(s: PageState, evs: seq<Event>): PageState
    decreases |evs|
  {
    if evs == [] then s else Apply(Run(s, evs[..|evs| - 1]), evs[|evs| - 1])
  }

  // ---------------------------------------------------------------------
  // messages

  /** JSON text with a defined `viewers` sets the count to it, negative or not. */
  lemma TextSetsViewers(s: PageState, text: string, v: int)
    requires text != ""
    ensures AfterMessage(s, TextData(text, JsonObject(Some(v)))).viewerCount == v
  {
  }

  /** Any other message leaves the count, the flag and the error alone. */
  lemma OtherMessagesKeepCount(s: PageState, m: Message)
    requires Reported(m).None?
    ensures AfterMessage(s, m) == s.(img := ShowFrame(s.img, m))
  {
  }

  predicate ReportsViewers(e: Event) {
    e.Incoming? && Reported(e.m).Some?
  }

  /** The count is the one reported by the latest message that reports one. */
  lemma {:induction false} ViewerCountIsLastReported(s: PageState, evs: seq<Event>, k: nat)
    requires k < |evs| && ReportsViewers(evs[k])
    requires forall j | k < j < |evs| :: !ReportsViewers(evs[j])
    ensures Run(s, evs).viewerCount == Reported(evs[k].m).value
    decreases |evs|
  {
    var n := |evs| - 1;
    if k < n {
      var pre := evs[..n];
      assert pre[k] == evs[k];
      forall j | k < j < |pre| ensures !ReportsViewers(pre[j]) {
        assert pre[j] == evs[j];
      }
      ViewerCountIsLastReported(s, pre, k);
      assert !ReportsViewers(evs[n]);
    }
  }

  /** With no message reporting a count, the count keeps its initial value. */
  lemma {:induction false} ViewerCountUnreported(s: PageState, evs: seq<Event>)
    requires forall i | 0 <= i < |evs| :: !ReportsViewers(evs[i])
    ensures Run(s, evs).viewerCount == s.viewerCount
    decreases |evs|
  {
    if evs != [] {
      var n := |evs| - 1;
      assert forall i | 0 <= i < n :: evs[..n][i] == evs[i];
      ViewerCountUnreported(s, evs[..n]);
      assert !ReportsViewers(evs[n]);
    }
  }

  /** The image evolves exactly as the shared image model does on the page's messages. */
  lemma {:induction false} ImageFollowsMessages(s: PageState, evs: seq<Event>)
    ensures Run(s, evs).img == ShowAll(s.img, MessagesOf(evs))
    decreases |evs|
  {
    if evs != [] {
      var n := |evs| - 1;
      ImageFollowsMessages(s, evs[..n]);
      var ms := MessagesOf(evs[..n]);
      if evs[n].Incoming? {
        assert MessagesOf(evs) == ms + [evs[n].m];
        assert (ms + [evs[n].m])[..|ms|] == ms;
      } else {
        assert MessagesOf(evs) == ms;
      }
    }
  }

  /** With the image mounted, at most one created object URL is ever unrevoked. */
  lemma PageKeepsOneLive(mounted: bool, evs: seq<Event>)
    requires mounted
    ensures AtMostOneLive(Run(Initial(mounted), evs).img)
  {
    ImageFollowsMessages(Initial(mounted), evs);
    ShowAllKeepsOneLive(Blank(mounted), MessagesOf(evs));
  }

  // ---------------------------------------------------------------------
  // the toggle

  /** `isStreaming` changes only when the fetch resolves, whatever the status;
      a thrown fetch sets the error and leaves the flag. */
  lemma ToggleSettles(s: PageState, req: ToggleRequest, outcome: FetchOutcome)
    ensures outcome.Resolved? ==> AfterToggle(s, req, outcome) == s.(isStreaming := !req.captured)
    ensures outcome.Threw? ==>
      AfterToggle(s, req, outcome) == s.(error := Some(ToggleError)) &&
      AfterToggle(s, req, outcome).isStreaming == s.isStreaming
  {
  }

  /** Two clicks before a re-render close over the same flag: both post the
      same action and, once both resolve, the flag is toggled once, not twice. */
  lemma StaleClicksRepeatAction(s: PageState, status1: int, status2: int)
    ensures var req := RequestFor(s.isStreaming);
      var r := AfterToggle(AfterToggle(s, req, Resolved(status1)), req, Resolved(status2));
      r.isStreaming == !s.isStreaming
  {
  }

  /** The error, once set, is never cleared: after a trace it is set exactly
      when it was set before or some toggle in the trace threw. */
  lemma {:induction false} ErrorIsSticky(s: PageState, evs: seq<Event>)
    ensures Run(s, evs).error ==
      if exists i | 0 <= i < |evs| :: evs[i].ToggleSettled? && evs[i].outcome.Threw?
      then Some(ToggleError) else s.error
    decreases |evs|
  {
    if evs != [] {
      var n := |evs| - 1;
      var pre := evs[..n];
      ErrorIsSticky(s, pre);
      if exists i | 0 <= i < |pre| :: pre[i].ToggleSettled? && pre[i].outcome.Threw? {
        var i :| 0 <= i < |pre| && pre[i].ToggleSettled? && pre[i].outcome.Threw?;
        assert evs[i] == pre[i];
      }
      if exists i | 0 <= i < |evs| :: evs[i].ToggleSettled? && evs[i].outcome.Threw? {
        var i :| 0 <= i < |evs| && evs[i].ToggleSettled? && evs[i].outcome.Threw?;
        if i < n { assert pre[i] == evs[i]; }
      }
    }
  }

  predicate Resolves(e: Event) {
    e.ToggleSettled? && e.outcome.Resolved?
  }

  /** The flag is the negation of what the latest resolved toggle closed over. */
  lemma {:induction false} FlagFollowsLastResolved(s: PageState, evs: seq<Event>, k: nat)
    requires k < |evs| && Resolves(evs[k])
    requires forall j | k < j < |evs| :: !Resolves(evs[j])
    ensures Run(s, evs).isStreaming == !evs[k].req.captured
    decreases |evs|
  {
    var n := |evs| - 1;
    if k < n {
      var pre := evs[..n];
      assert pre[k] == evs[k];
      forall j | k < j < |pre| ensures !Resolves(pre[j]) {
        assert pre[j] == evs[j];
      }
      FlagFollowsLastResolved(s, pre, k);
      assert !Resolves(evs[n]);
    }
  }

  /** With no resolved toggle, the flag keeps its initial value. */
  lemma {:induction false} FlagUnresolved(s: PageState, evs: seq<Event>)
    requires forall i | 0 <= i < |evs| :: !Resolves(evs[i])
    ensures Run(s, evs).isStreaming == s.isStreaming
    decreases |evs|
  {
    if evs != [] {
      var n := |evs| - 1;
      assert forall i | 0 <= i < n :: evs[..n][i] == evs[i];
      FlagUnresolved(s, evs[..n]);
      assert !Resolves(evs[n]);
    }
  }

  // ---------------------------------------------------------------------
  // the component

  class CameraStreamPage {
    const mounted: bool
    var src: Option<Url>
    var objects: seq<Bytes>
    var revoked: set<Url>
    var viewerCount: int
    var isStreaming: bool
    var error: Option<string>

    function State(): PageState
      reads this
    {
      PageState(Img(mounted, src, objects, revoked), viewerCount, isStreaming, error)
    }

    constructor (mounted: bool)
      ensures State() == Initial(mounted)
      ensures !isStreaming && error == None && viewerCount == 0
    {
      this.mounted := mounted;
      src := None;
      objects := [];
      revoked := {};
      viewerCount := 0;
      isStreaming := false;
      error := None;
    }

    method OnMessage(m: Message)
      modifies this
      ensures State() == AfterMessage(old(State()), m)
    {
      if src.Some? {
        revoked := revoked + {src.value};
      }
      match m {
        case BlobData(blob) =>
          var url := |objects|;
          objects := objects + [blob];
          if mounted {
            src := Some(url);
          }
        case TextData(text, parsed) =>
          if text != "" && parsed.JsonObject? && parsed.viewers.Some? {
            viewerCount := parsed.viewers.value;
          }
        case NoMessage =>
      }
    }

    /** The click reads the flag of the current render. */
    method Click() returns (req: ToggleRequest)
      ensures req == RequestFor(isStreaming)
    {
      var action := if isStreaming then StopAction else StartAction;
      req := ToggleRequest(action, isStreaming);
    }

    method SettleToggle(req: ToggleRequest, outcome: FetchOutcome)
      modifies this
      ensures State() == AfterToggle(old(State()), req, outcome)
    {
      match outcome {
        case Resolved(_) =>
          isStreaming := !req.captured;
        case Threw =>
          error := Some(ToggleError);
      }
    }
  }
}
