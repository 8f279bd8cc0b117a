/**
 * The trimmed camera component (my-app/app/components/camera.tsx): the same
 * image swap as the full page but no viewer count, and a toggle with no
 * `catch`, so a thrown fetch rejects the click's promise and records nothing.
 */
module CameraComponent {
  import opened Wrappers
  import opened CameraClient
  import CameraPage

  datatype ViewState = ViewState(img: Img, isStreaming: bool)

  function Initial(mounted: bool): ViewState {
    ViewState(Blank(mounted), false)
  }

  function AfterMessage(s: ViewState, m: Message): ViewState {
    s.(img := ShowFrame(s.img, m))
  }

  /** The settled toggle: `Some(state)` when the fetch resolved, `None` when it
      threw and the rejection propagated with the state untouched. */
  function AfterToggle(s: ViewState, req: ToggleRequest, outcome: FetchOutcome): Option<ViewState> {
    match outcome
    case Resolved(_) => Some(s.(isStreaming := !req.captured))
    case Threw => None
  }

  function Apply(s: ViewState, e: Event): ViewState {
    match e
    case Incoming(m) => AfterMessage(s, m)
    case ToggleSettled(req, outcome) =>
      var next := AfterToggle(s, req, outcome);
      if next.Some? then next.value else s
  }

  function Run(s: ViewState, evs: seq<Event>): ViewState
    decreases |evs|
  {
    if evs == [] then s else Apply(Run(s, evs[..|evs| - 1]), evs[|evs| - 1])
  }

  /** A message that is not a Blob does nothing beyond revoking the current src:
      there is no viewer handling here. */
  lemma NonBlobOnlyRevokes(s: ViewState, m: Message)
    requires !m.BlobData?
    ensures AfterMessage(s, m) == s.(img := RevokeSrc(s.img))
  {
  }

  /** A thrown fetch rejects and leaves `isStreaming`; a resolved one, whatever
      its status, sets it to the negation of the value the click closed over. */
  lemma ToggleSettles(s: ViewState, req: ToggleRequest, outcome: FetchOutcome)
    ensures outcome.Threw? ==> AfterToggle(s, req, outcome).None? && Apply(s, ToggleSettled(req, outcome)) == s
    ensures outcome.Resolved? ==> AfterToggle(s, req, outcome) == Some(s.(isStreaming := !req.captured))
  {
  }

  /** On the same events from the same start, the trimmed component shows
      exactly the images the full page shows and holds the same object URLs. */
  lemma {:induction false} SameImagesAsPage(mounted: bool, evs: seq<Event>)
    ensures Run(Initial(mounted), evs).img == CameraPage.Run(CameraPage.Initial(mounted), evs).img
    decreases |evs|
  {
    if evs != [] {
      SameImagesAsPage(mounted, evs[..|evs| - 1]);
    }
  }

  /** With the image mounted, at most one created object URL is ever unrevoked. */
  lemma ComponentKeepsOneLive(mounted: bool, evs: seq<Event>)
    requires mounted
    ensures AtMostOneLive(Run(Initial(mounted), evs).img)
  {
    SameImagesAsPage(mounted, evs);
    CameraPage.PageKeepsOneLive(mounted, evs);
  }

  class CameraView {
    const mounted: bool
    var src: Option<Url>
    var objects: seq<Bytes>
    var revoked: set<Url>
    var isStreaming: bool

    function State(): ViewState
      reads this
    {
      ViewState(Img(mounted, src, objects, revoked), isStreaming)
    }

    constructor (mounted: bool)
      ensures State() == Initial(mounted)
      ensures !isStreaming
    {
      this.mounted := mounted;
      src := None;
      objects := [];
      revoked := {};
      isStreaming := false;
    }

    method OnMessage(m: Message)
      modifies this
      ensures State() == AfterMessage(old(State()), m)
    {
      if src.Some? {
        revoked := revoked + {src.value};
      }
      if m.BlobData? {
        var url := |objects|;
        objects := objects + [m.blob];
        if mounted {
          src := Some(url);
        }
      }
    }

    method Click() returns (req: ToggleRequest)
      ensures req == RequestFor(isStreaming)
    {
      var action := if isStreaming then StopAction else StartAction;
      req := ToggleRequest(action, isStreaming);
    }

    /** Returns true when the fetch threw and the rejection propagates. */
    method SettleToggle(req: ToggleRequest, outcome: FetchOutcome) returns (rejected: bool)
      modifies this
      ensures rejected == outcome.Threw?
      ensures State() == Apply(old(State()), ToggleSettled(req, outcome))
    {
      rejected := outcome.Threw?;
      if !rejected {
        isStreaming := !req.captured;
      }
    }
  }
}
