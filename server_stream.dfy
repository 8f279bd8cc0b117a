/**
 * The server side of the camera stream (camera-app/main.py): the frame holder
 * the JPEG encoder writes into, and the stream object that owns the camera,
 * the streaming task and the set of open websockets.
 *
 * Websockets, asyncio tasks and Picamera2 instances are opaque ids. The state
 * of `JpegStream` is given once as a value (`StreamState`) with one function
 * per operation; the class `JpegStream` keeps the same fields and its methods
 * are proved to change them exactly as those functions say.
 */
module ServerStream {
  import opened Wrappers

  type SocketId = nat
  type TaskId = nat
  type CameraId = nat
  type Jpeg = seq<bv8>

  datatype StreamState = StreamState(
    active: bool,
    connections: set<SocketId>,
    camera: Option<CameraId>,
    task: Option<TaskId>)

  /** A stream as `JpegStream.__init__` leaves it. */
  const Fresh := StreamState(false, {}, None, None)

  /** The stream's invariant: a task exists exactly while the stream is
      active, and the camera is only held by an active stream. */
  ghost predicate Valid(s: StreamState) {
    && (s.active <==> s.task.Some?)
    && (!s.active ==> s.camera.None?)
  }

  /** The `finally` of the streaming loop: the camera is stopped, closed and dropped. */
  function LoopFinished(s: StreamState): StreamState {
    s.(camera := None)
  }

  /** `start`: only an inactive stream is switched on, with the new task. */
  function Started(s: StreamState, t: TaskId): StreamState {
    if !s.active then s.(active := true, task := Some(t)) else s
  }

  /** `stop`: an active stream is switched off; awaiting its task lets the
      loop see `active == false` and run its `finally`, then the task is dropped. */
  function Stopped(s: StreamState): StreamState {
    if !s.active then s
    else
      var off := s.(active := false);
      if off.task.Some? then LoopFinished(off).(task := None) else off
  }

  /** The first steps of `stream_jpeg`: the task opens the camera. */
  function TaskRan(s: StreamState, cam: CameraId): StreamState {
    if s.task.Some? && s.camera.None? then s.(camera := Some(cam)) else s
  }

  /** `ws_endpoint` after `accept`: the socket joins the set. */
  function Accepted(s: StreamState, ws: SocketId): StreamState {
    s.(connections := s.connections + {ws})
  }

  /** The `finally` of `ws_endpoint`: the socket leaves the set and, if it was
      the last one, the stream is stopped. Removing a socket that is not in the
      set raises `KeyError` before anything changes. */
  function Disconnected(s: StreamState, ws: SocketId): StreamState {
    if ws !in s.connections then s
    else
      var rest := s.(connections := s.connections - {ws});
      if rest.connections == {} then Stopped(rest) else rest
  }

  datatype Event =
    | Start(t: TaskId)
    | Stop
    | TaskRuns(cam: CameraId)
    | Accept(ws: SocketId)
    | Disconnect(ws: SocketId)

  function Apply(s: StreamState, e: Event): StreamState {
    match e
    case Start(t) => Started(s, t)
    case Stop => Stopped(s)
    case TaskRuns(cam) => TaskRan(s, cam)
    case Accept(ws) => Accepted(s, ws)
    case Disconnect(ws) => Disconnected(s, ws)
  }

  /** The state after a whole trace of events, the last one applied last. */
  function Run(s: StreamState, evs: seq<Event>): StreamState
    decreases |evs|
  {
    if evs == [] then s else Apply(Run(s, evs[..|evs| - 1]), evs[|evs| - 1])
  }

  // ---------------------------------------------------------------------
  // start and stop

  lemma FreshIsValid()
    ensures Valid(Fresh)
    ensures !Fresh.active && Fresh.connections == {} && Fresh.camera.None? && Fresh.task.None?
  {
  }

  /** An inactive stream becomes active with exactly the new task; an active
      one is left as it is, so a second `start` changes nothing. */
  lemma StartOnce(s: StreamState, t1: TaskId, t2: TaskId)
    ensures !s.active ==> Started(s, t1) == s.(active := true, task := Some(t1))
    ensures s.active ==> Started(s, t1) == s
    ensures Started(Started(s, t1), t2) == Started(s, t1)
  {
  }

  /** Stopping an active stream switches it off, drops its task and releases
      the camera, leaving the connections alone; a second `stop` changes nothing. */
  lemma StopOnce(s: StreamState)
    requires Valid(s)
    ensures s.active ==> !Stopped(s).active && Stopped(s).task.None? && Stopped(s).camera.None?
    ensures Stopped(s).connections == s.connections
    ensures !s.active ==> Stopped(s) == s
    ensures Stopped(Stopped(s)) == Stopped(s)
  {
  }

  lemma {:induction false} ApplyKeepsValid(s: StreamState, e: Event)
    requires Valid(s)
    ensures Valid(Apply(s, e))
  {
    match e
    case Disconnect(ws) =>
      if ws in s.connections {
        var rest := s.(connections := s.connections - {ws});
        assert Valid(rest);
        StopOnce(rest);
      }
    case _ =>
  }

  /** Every stream reachable from a valid one is valid. */
  lemma {:induction false} RunKeepsValid(s: StreamState, evs: seq<Event>)
    requires Valid(s)
    ensures Valid(Run(s, evs))
    decreases |evs|
  {
    if evs != [] {
      RunKeepsValid(s, evs[..|evs| - 1]);
      ApplyKeepsValid(Run(s, evs[..|evs| - 1]), evs[|evs| - 1]);
    }
  }

  // ---------------------------------------------------------------------
  // the connection registry

  /** `ws` is still open after `evs`: it was open before and never disconnected,
      or its last accept is followed by no disconnect. */
  ghost predicate StillOpen(ws: SocketId, s: StreamState, evs: seq<Event>) {
    || (ws in s.connections && forall i | 0 <= i < |evs| :: evs[i] != Disconnect(ws))
    || exists i | 0 <= i < |evs| :: evs[i] == Accept(ws) && forall j | i < j < |evs| :: evs[j] != Disconnect(ws)
  }

  /** A socket is in `connections` from its accept until its disconnect, and at
      no other time; no other event touches the set. */
  lemma {:induction false} ConnectionsAreOpenSockets(s: StreamState, evs: seq<Event>, ws: SocketId)
    ensures ws in Run(s, evs).connections <==> StillOpen(ws, s, evs)
    decreases |evs|
  {
    if evs != [] {
      var n := |evs| - 1;
      var pre, e := evs[..n], evs[n];
      assert evs == pre + [e];
      ConnectionsAreOpenSockets(s, pre, ws);
      if e == Accept(ws) {
        assert StillOpen(ws, s, evs) by {
          assert evs[n] == Accept(ws);
        }
      } else if e == Disconnect(ws) {
        assert !StillOpen(ws, s, evs) by {
          forall i | 0 <= i < |evs| && evs[i] == Accept(ws)
            ensures exists j | i < j < |evs| :: evs[j] == Disconnect(ws)
          {
            assert evs[n] == Disconnect(ws);
          }
        }
      } else {
        assert ws in Run(s, evs).connections <==> ws in Run(s, pre).connections;
        if StillOpen(ws, s, pre) {
          if ws in s.connections && forall i | 0 <= i < |pre| :: pre[i] != Disconnect(ws) {
            assert forall i | 0 <= i < |evs| :: evs[i] != Disconnect(ws) by {
              forall i | 0 <= i < |evs| ensures evs[i] != Disconnect(ws) {
                if i < n { assert evs[i] == pre[i]; }
              }
            }
          } else {
            var i :| 0 <= i < |pre| && pre[i] == Accept(ws) && forall j | i < j < |pre| :: pre[j] != Disconnect(ws);
            assert evs[i] == Accept(ws);
            forall j | i < j < |evs| ensures evs[j] != Disconnect(ws) {
              if j < n { assert evs[j] == pre[j]; }
            }
          }
        }
        if StillOpen(ws, s, evs) {
          if ws in s.connections && forall i | 0 <= i < |evs| :: evs[i] != Disconnect(ws) {
            forall i | 0 <= i < |pre| ensures pre[i] != Disconnect(ws) {
              assert pre[i] == evs[i];
            }
          } else {
            var i :| 0 <= i < |evs| && evs[i] == Accept(ws) && forall j | i < j < |evs| :: evs[j] != Disconnect(ws);
            assert i < n;
            assert pre[i] == Accept(ws);
            forall j | i < j < |pre| ensures pre[j] != Disconnect(ws) {
              assert pre[j] == evs[j];
            }
          }
        }
      }
    }
  }

  /** Disconnecting the last open socket stops the stream. */
  lemma LastDisconnectStops(s: StreamState, ws: SocketId)
    requires Valid(s)
    requires s.connections == {ws}
    ensures Disconnected(s, ws) == Stopped(s).(connections := {})
    ensures !Disconnected(s, ws).active && Disconnected(s, ws).task.None?
    ensures Disconnected(s, ws).camera.None?
  {
  }

  /** Disconnecting while other sockets remain only removes that socket. */
  lemma DisconnectWithOthersKeepsStream(s: StreamState, ws: SocketId, other: SocketId)
    requires ws in s.connections && other in s.connections && other != ws
    ensures Disconnected(s, ws) == s.(connections := s.connections - {ws})
    ensures Disconnected(s, ws).active == s.active
  {
    assert other in s.connections - {ws};
  }

  // ---------------------------------------------------------------------
  // the imperative objects

  /** The outcome of one `send_bytes` in a broadcast round. */
  datatype SendResult = Delivered(jpeg: Jpeg) | SendFailed

  /** `StreamingOutput`: the encoder's sink, holding only the latest frame. */
  class StreamingOutput {
    var frame: Option<Jpeg>

    constructor ()
      ensures frame == None
    {
      frame := None;
    }

    /** A new buffer replaces the held one; earlier buffers are not kept. */
    method Write(buf: Jpeg)
      modifies this
      ensures frame == Some(buf)
    {
      frame := Some(buf);
    }
  }

  class JpegStream {
    var active: bool
    var connections: set<SocketId>
    var camera: Option<CameraId>
    var task: Option<TaskId>

    function State(): StreamState
      reads this
    {
      StreamState(active, connections, camera, task)
    }

    constructor ()
      ensures State() == Fresh
      ensures !active && connections == {} && camera == None && task == None
    {
      active := false;
      connections := {};
      camera := None;
      task := None;
    }

    method Start(t: TaskId)
      modifies this
      ensures State() == Started(old(State()), t)
    {
      if !active {
        active := true;
        task := Some(t);
      }
    }

    /** The streaming loop's `finally`: it reports the camera it stopped and closed. */
    method FinishLoop() returns (closed: Option<CameraId>)
      modifies this
      ensures closed == old(camera)
      ensures State() == LoopFinished(old(State()))
    {
      closed := camera;
      camera := None;
    }

    method Stop()
      modifies this
      ensures State() == Stopped(old(State()))
    {
      if active {
        active := false;
        if task.Some? {
          var closed := FinishLoop();
          task := None;
        }
      }
    }

    /** The task's first steps: it opens and starts the camera. */
    method BeginLoop(cam: CameraId)
      modifies this
      ensures State() == TaskRan(old(State()), cam)
    {
      if task.Some? && camera.None? {
        camera := Some(cam);
      }
    }

    /** One round of the streaming loop: the frame goes to every socket of a
        copy of the set taken before sending; a socket whose send fails (those
        in `failing`) gets `SendFailed` and the round goes on. */
    method Broadcast(jpeg: Jpeg, failing: set<SocketId>) returns (round: map<SocketId, SendResult>)
      ensures round.Keys == connections
      ensures forall ws | ws in round :: round[ws] == (if ws in failing then SendFailed else Delivered(jpeg))
    {
      var snapshot := connections;
      var pending := snapshot;
      round := map[];
      while pending != {}
        invariant pending <= snapshot
        invariant round.Keys == snapshot - pending
        invariant forall ws | ws in round :: round[ws] == (if ws in failing then SendFailed else Delivered(jpeg))
        decreases pending
      {
        var ws :| ws in pending;
        var result := if ws in failing then SendFailed else Delivered(jpeg);
        round := round[ws := result];
        pending := pending - {ws};
      }
    }

    method Accept(ws: SocketId)
      modifies this
      ensures State() == Accepted(old(State()), ws)
    {
      connections := connections + {ws};
    }

    /** Returns false when the socket was not in the set (the `KeyError` path). */
    method Disconnect(ws: SocketId) returns (removed: bool)
      modifies this
      ensures removed == (ws in old(connections))
      ensures State() == Disconnected(old(State()), ws)
    {
      removed := ws in connections;
      if removed {
        connections := connections - {ws};
        if connections == {} {
          Stop();
        }
      }
    }
  }
}
