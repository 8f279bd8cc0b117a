/**
 * What the two camera views of the web client share: the websocket message
 * kinds, the `<img>` element whose `src` is an object URL, the browser's
 * object-URL registry, and the start/stop request a toggle sends
 * (my-app/app/camera/page.tsx and my-app/app/components/camera.tsx).
 *
 * Object URLs are fresh integers: `URL.createObjectURL` hands out URL
 * `|objects|` for the blob it appends, and `URL.revokeObjectURL` adds a URL
 * to `revoked`.
 */
module CameraClient {
  import opened Wrappers

  type Url = nat
  type Bytes = seq<bv8>

  /** The outcome of `JSON.parse` on a text frame, and whether the parsed
      value's `viewers` field is defined. */
  datatype JsonParse = NotJson | JsonObject(viewers: Option<int>)

  /** `lastMessage.data`: nothing yet, a Blob, or text whose parse is an input. */
  datatype Message =
    | NoMessage
    | BlobData(blob: Bytes)
    | TextData(text: string, parsed: JsonParse)

  /** The image element (`mounted` when `imgRef.current` is set) and the registry. */
  datatype Img = Img(mounted: bool, src: Option<Url>, objects: seq<Bytes>, revoked: set<Url>)

  function Blank(mounted: bool): Img {
    Img(mounted, None, [], {})
  }

  /** `src` names a created URL, only a mounted image has one, and only
      created URLs are ever revoked. */
  ghost predicate WellFormed(i: Img) {
    && (i.src.Some? ==> i.mounted && i.src.value < |i.objects|)
    && (forall u | u in i.revoked :: u < |i.objects|)
  }

  /** The object URLs created and not yet revoked. */
  function Live(i: Img): set<Url> {
    set u: Url | u < |i.objects| && u !in i.revoked
  }

  /** No blob is held beyond the one on screen. */
  ghost predicate AtMostOneLive(i: Img) {
    forall u | u in Live(i) :: i.src == Some(u)
  }

  /** `if (imgRef.current?.src) URL.revokeObjectURL(imgRef.current.src)`. */
  function RevokeSrc(i: Img): Img {
    if i.src.Some? then i.(revoked := i.revoked + {i.src.value}) else i
  }

  /** The image half of the message effect: revoke the current src, then for a
      Blob create a URL and, if the element is there, make it the src. */
  function ShowFrame(i: Img, m: Message): Img {
    var cleared := RevokeSrc(i);
    if m.BlobData? then
      var url := |cleared.objects|;
      cleared.(objects := cleared.objects + [m.blob], src := if cleared.mounted then Some(url) else cleared.src)
    else cleared
  }

  /** The image after a sequence of messages, the last one shown last. */
  function ShowAll(i: Img, ms: seq<Message>): Img
    decreases |ms|
  {
    if ms == [] then i else ShowFrame(ShowAll(i, ms[..|ms| - 1]), ms[|ms| - 1])
  }

  /** Every message revokes the src it finds, whatever its kind. */
  lemma MessageRevokesSrc(i: Img, m: Message)
    requires i.src.Some?
    ensures i.src.value in ShowFrame(i, m).revoked
    ensures i.src.value !in Live(ShowFrame(i, m))
  {
  }

  /** A Blob on a mounted image gets a fresh, unrevoked URL naming its bytes,
      and that URL becomes the src. */
  lemma BlobBecomesSrc(i: Img, blob: Bytes)
    requires WellFormed(i) && i.mounted
    ensures var r := ShowFrame(i, BlobData(blob));
      && r.src == Some(|i.objects|)
      && r.objects[|i.objects|] == blob
      && |i.objects| in Live(r)
      && |i.objects| !in Live(i)
  {
  }

  /** A message that is not a Blob only revokes the current src. */
  lemma NonBlobOnlyRevokes(i: Img, m: Message)
    requires !m.BlobData?
    ensures ShowFrame(i, m) == RevokeSrc(i)
  {
  }

  /** Without the element a Blob's URL is created but never bound or revoked. */
  lemma UnmountedBlobLeaks(i: Img, blob: Bytes)
    requires WellFormed(i) && !i.mounted
    ensures Live(ShowFrame(i, BlobData(blob))) == Live(i) + {|i.objects|}
  {
    var r := ShowFrame(i, BlobData(blob));
    assert r.revoked == i.revoked;
    forall u | u in Live(r) ensures u in Live(i) + {|i.objects|} {
    }
    forall u | u in Live(i) + {|i.objects|} ensures u in Live(r) {
    }
  }

  lemma {:induction false} ShowFrameKeepsOneLive(i: Img, m: Message)
    requires WellFormed(i) && AtMostOneLive(i) && i.mounted
    ensures WellFormed(ShowFrame(i, m)) && AtMostOneLive(ShowFrame(i, m))
  {
    var cleared := RevokeSrc(i);
    forall u: Url | u < |i.objects| && u !in i.revoked ensures u in cleared.revoked {
      assert u in Live(i);
    }
    assert Live(cleared) == {};
    if m.BlobData? {
      var r := ShowFrame(i, m);
      assert forall u | u in Live(r) :: u in Live(cleared) || u == |i.objects|;
    }
  }

  /** On a mounted image, at any time at most one created object URL is
      unrevoked, and it is the one on screen. */
  lemma {:induction false} ShowAllKeepsOneLive(i: Img, ms: seq<Message>)
    requires WellFormed(i) && AtMostOneLive(i) && i.mounted
    ensures WellFormed(ShowAll(i, ms)) && AtMostOneLive(ShowAll(i, ms))
    ensures ShowAll(i, ms).mounted
    decreases |ms|
  {
    if ms != [] {
      ShowAllKeepsOneLive(i, ms[..|ms| - 1]);
      ShowFrameKeepsOneLive(ShowAll(i, ms[..|ms| - 1]), ms[|ms| - 1]);
    }
  }

  /** The src of a mounted image names the bytes of the latest Blob received. */
  lemma {:induction false} ShowsLatestBlob(i: Img, ms: seq<Message>, k: nat)
    requires WellFormed(i) && i.mounted
    requires k < |ms| && ms[k].BlobData?
    requires forall j | k < j < |ms| :: !ms[j].BlobData?
    ensures var r := ShowAll(i, ms);
      r.src.Some? && r.src.value < |r.objects| && r.objects[r.src.value] == ms[k].blob
    decreases |ms|
  {
    var n := |ms| - 1;
    var pre := ms[..n];
    if k == n {
      WellFormedStays(i, pre);
      BlobBecomesSrc(ShowAll(i, pre), ms[k].blob);
    } else {
      ShowsLatestBlob(i, pre, k);
      var p := ShowAll(i, pre);
      assert !ms[n].BlobData?;
      assert ShowAll(i, ms) == RevokeSrc(p);
    }
  }

  lemma {:induction false} WellFormedStays(i: Img, ms: seq<Message>)
    requires WellFormed(i)
    ensures WellFormed(ShowAll(i, ms)) && ShowAll(i, ms).mounted == i.mounted
    decreases |ms|
  {
    if ms != [] {
      WellFormedStays(i, ms[..|ms| - 1]);
    }
  }

  // ---------------------------------------------------------------------
  // the stream toggle

  datatype Action = StartAction | StopAction

  /** The path each action is POSTed to. */
  function Endpoint(a: Action): string {
    match a
    case StartAction => "/py/start"
    case StopAction => "/py/stop"
  }

  /** How the `fetch` of a toggle settles: resolved with any HTTP status, or thrown. */
  datatype FetchOutcome = Resolved(status: int) | Threw

  /** A click: the action chosen and the `isStreaming` value the callback closed over. */
  datatype ToggleRequest = ToggleRequest(action: Action, captured: bool)

  /** The click: POST to `stop` while streaming, to `start` otherwise. */
  function RequestFor(isStreaming: bool): (req: ToggleRequest)
    ensures req.captured == isStreaming
    ensures req.action == StopAction <==> isStreaming
    ensures Endpoint(req.action) == if isStreaming then "/py/stop" else "/py/start"
  {
    ToggleRequest(if isStreaming then StopAction else StartAction, isStreaming)
  }

  /** What happens to a camera view: a websocket message, or a toggle's fetch settling. */
  datatype Event = Incoming(m: Message) | ToggleSettled(req: ToggleRequest, outcome: FetchOutcome)

  /** The websocket messages of a trace, in order. */
  function MessagesOf(evs: seq<Event>): seq<Message>
    decreases |evs|
  {
    if evs == [] then []
    else
      var last := evs[|evs| - 1];
      MessagesOf(evs[..|evs| - 1]) + if last.Incoming? then [last.m] else []
  }
}
