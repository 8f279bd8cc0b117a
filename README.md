# Camera stream, viewer and distance poller — a Dafny model

The repository drives a Raspberry Pi camera, an LED and an ultrasonic
sensor: a FastAPI server (`camera-app/main.py`) and a Next.js client
(`my-app`). This project models the three small state machines inside it,
with every outside effect (camera, asyncio task, websocket, `fetch`,
`JSON.parse`, timers) turned into an input or an opaque id:

- **Server stream lifecycle** (`ServerStream`, `server_stream.dfy`):
  `StreamingOutput`, which keeps only the latest JPEG buffer, and
  `JpegStream`, with its `active` flag, optional task, optional camera and
  set of websocket connections. `start` and `stop` are guarded so that
  repeating them changes nothing. Stopping an active stream awaits its task,
  so the loop's `finally` releases the camera. Each frame is broadcast to a
  snapshot of the set, and a failing send does not abort the round. The
  websocket handler adds its socket on accept and removes it on disconnect;
  removing the last socket stops the stream.
- **Client viewer session** (`CameraClient`, `CameraPage`,
  `CameraComponent`): every message revokes the image's current object URL.
  A Blob gets a fresh URL that becomes the `src`. Non-empty text that parses
  to JSON with a defined `viewers` sets the viewer count, with no range
  check. The start/stop toggle flips `isStreaming` only when `fetch`
  resolves, whatever the HTTP status. On the full page a thrown `fetch` sets
  a sticky error. In the trimmed component it rejects and records nothing.
- **Distance poller** (`Ultrasonic`, `ultrasonic.dfy`): mount polls once at
  once and then on every 500 ms tick, and unmount clears the interval. A
  parsed body sets the reading to its `distance_cm` verbatim, which is
  `undefined` for the server's `{"error": ...}` payloads. A thrown poll
  leaves the reading unchanged. Nothing tracks polls in flight.

Each component's state is written once as a value: a state datatype, one
function per operation, and `Run`, which applies a trace of events with the
last event applied last. A class with the source's own fields then has
methods proved to change those fields exactly as the functions say. Lemmas
over all traces state what the code guarantees. Object URLs are integers:
`createObjectURL` hands out URL `|objects|` for the blob it appends, and
`revokeObjectURL` adds the URL to `revoked`.

Behaviour one might expect but which the code does not have, and which the
model therefore does not assume: brightness range checks; discarding poll
results that arrive after unmount; a limit of one outstanding poll; treating
non-2xx responses as failures; keeping the last reading when the server
reports a sensor timeout (the code sets it to `undefined`). The client's
`viewers` branch is reachable only through the model's inputs, because the
server only ever calls `send_bytes` (camera-app/main.py:70).

## Model

| member | source | states |
|---|---|---|
| ServerStream.StreamingOutput.constructor | camera-app/main.py:38-41 | a new output holds no frame |
| ServerStream.StreamingOutput.Write | camera-app/main.py:43-46 | a written buffer replaces the held frame, so only the latest buffer is kept |
| ServerStream.JpegStream.constructor | camera-app/main.py:54-58 | a fresh stream is inactive, with no connections, no camera and no task |
| ServerStream.FreshIsValid | camera-app/main.py:54-58 | the fresh stream satisfies the stream invariant (a task exactly while active, a camera only while active) |
| ServerStream.JpegStream.Start | camera-app/main.py:77-80 | the new fields are exactly those that `Started` gives from the old ones |
| ServerStream.StartOnce | camera-app/main.py:77-80 | an inactive stream becomes active and records exactly the new task, changing nothing else; an active stream is left alone; `start; start` equals `start` |
| ServerStream.JpegStream.Stop | camera-app/main.py:82-87 | the new fields are exactly those that `Stopped` gives from the old ones, with the awaited loop's `finally` run inside |
| ServerStream.StopOnce | camera-app/main.py:82-87 | stopping an active valid stream clears `active` and drops the task and the camera, keeping the connections; an inactive stream is left alone; `stop; stop` equals `stop` |
| ServerStream.JpegStream.FinishLoop | camera-app/main.py:72-75 | when the loop exits, the camera it held is the one stopped and closed, and `picam2` becomes None |
| ServerStream.JpegStream.BeginLoop | camera-app/main.py:61-65 | a task that has not yet opened a camera opens one; no other field changes |
| ServerStream.JpegStream.Broadcast | camera-app/main.py:70-71 | a broadcast round addresses exactly the sockets in `connections` when it starts; a socket whose send fails gets `SendFailed`, every other socket gets the frame |
| ServerStream.JpegStream.Accept | camera-app/main.py:154-155 | an accepted socket is added to `connections`; nothing else changes |
| ServerStream.JpegStream.Disconnect | camera-app/main.py:161-164 | a disconnect removes the socket and stops the stream when no socket is left; removing an absent socket (the `KeyError` path) changes nothing and returns false |
| ServerStream.ConnectionsAreOpenSockets | camera-app/main.py:153-164 | after any trace of events, a socket is in `connections` iff either it was there at the start and was never disconnected, or it was accepted with no later disconnect |
| ServerStream.LastDisconnectStops | camera-app/main.py:162-164 | removing the last connection from a valid stream runs `stop`: the stream ends inactive with no task and no camera |
| ServerStream.DisconnectWithOthersKeepsStream | camera-app/main.py:162-164 | removing a connection while others remain only removes it; `active` is unchanged |
| ServerStream.ApplyKeepsValid | camera-app/main.py:53-87 | every operation preserves the stream invariant |
| ServerStream.RunKeepsValid | camera-app/main.py:53-87 | every stream reachable from a valid one by any trace is valid |
| CameraClient.MessageRevokesSrc | my-app/app/camera/page.tsx:22-24 | every message, text included, revokes the image's current src when one is set |
| CameraClient.BlobBecomesSrc | my-app/app/camera/page.tsx:25-27 | on a mounted image a Blob gets a fresh, unrevoked URL that names its bytes and becomes the src |
| CameraClient.NonBlobOnlyRevokes | my-app/app/components/camera.tsx:13-19 | a message that is not a Blob does nothing to the image beyond revoking its src |
| CameraClient.UnmountedBlobLeaks | my-app/app/camera/page.tsx:25-27 | without the image element, a Blob's URL is created and then never bound or revoked, so the set of live URLs grows by one |
| CameraClient.ShowFrameKeepsOneLive | my-app/app/camera/page.tsx:21-27 | on a mounted image, one message preserves "at most one unrevoked URL, and it is the src" |
| CameraClient.ShowAllKeepsOneLive | my-app/app/camera/page.tsx:21-39 | on a mounted image, after any sequence of messages at most one created object URL is unrevoked, and it is the src |
| CameraClient.ShowsLatestBlob | my-app/app/camera/page.tsx:25-27 | on a mounted image, the src names the bytes of the latest Blob received, whatever text came after it |
| CameraPage.CameraStreamPage.constructor | my-app/app/camera/page.tsx:10-12 | initially `isStreaming` is false, `error` is null and `viewerCount` is 0 |
| CameraPage.CameraStreamPage.OnMessage | my-app/app/camera/page.tsx:21-39 | the effect changes the image, the URL registry and the viewer count exactly as `AfterMessage` says |
| CameraPage.TextSetsViewers | my-app/app/camera/page.tsx:30-34 | non-empty JSON text with a defined `viewers` sets the count to that value, negative or not |
| CameraPage.OtherMessagesKeepCount | my-app/app/camera/page.tsx:28-37 | text without `viewers`, text that is not JSON, empty text and Blobs change only the image: the count, the flag and the error stay |
| CameraPage.ViewerCountIsLastReported | my-app/app/camera/page.tsx:28-37 | after any trace, the count is the value from the latest message that reported one |
| CameraPage.ViewerCountUnreported | my-app/app/camera/page.tsx:28-37 | a trace in which no message reports `viewers` leaves the count as it was |
| CameraPage.ImageFollowsMessages | my-app/app/camera/page.tsx:21-27 | the page's image after any trace is the shared image model applied to the trace's messages; toggles do not touch it |
| CameraPage.PageKeepsOneLive | my-app/app/camera/page.tsx:21-27 | from the initial page with the image mounted, at most one created object URL is unrevoked after any trace |
| CameraClient.RequestFor | my-app/app/camera/page.tsx:43-45 | the toggle posts to `/py/stop` when `isStreaming` is true and to `/py/start` otherwise, and closes over the current flag |
| CameraPage.CameraStreamPage.Click | my-app/app/camera/page.tsx:42-45 | a click builds its request from the flag of the current render |
| CameraPage.CameraStreamPage.SettleToggle | my-app/app/camera/page.tsx:44-49 | the settled toggle changes the flag and the error exactly as `AfterToggle` says |
| CameraPage.ToggleSettles | my-app/app/camera/page.tsx:44-49 | a resolved fetch, whatever its status, sets `isStreaming` to the negation of the captured flag; a thrown fetch keeps the flag and sets the error |
| CameraPage.StaleClicksRepeatAction | my-app/app/camera/page.tsx:42-50 | two clicks before a re-render post the same action, and once both resolve the flag is toggled once, not twice |
| CameraPage.ErrorIsSticky | my-app/app/camera/page.tsx:47-49 | after any trace, the error is set exactly when it was set before or some toggle threw; nothing resets it |
| CameraPage.FlagFollowsLastResolved | my-app/app/camera/page.tsx:44-46 | after any trace, `isStreaming` is the negation of the flag captured by the latest resolved toggle |
| CameraPage.FlagUnresolved | my-app/app/camera/page.tsx:44-49 | a trace with no resolved toggle leaves `isStreaming` as it was, even when toggles threw |
| CameraComponent.CameraView.constructor | my-app/app/components/camera.tsx:9 | `isStreaming` starts false, with no src |
| CameraComponent.CameraView.OnMessage | my-app/app/components/camera.tsx:13-19 | the effect revokes the current src and binds a fresh URL for a Blob, exactly as `AfterMessage` says |
| CameraComponent.NonBlobOnlyRevokes | my-app/app/components/camera.tsx:13-19 | a non-Blob message does nothing beyond revoking the src; there is no viewer handling |
| CameraComponent.SameImagesAsPage | my-app/app/components/camera.tsx:13-19 | on the same events from the same start, the trimmed component's image, src and object-URL registry equal the full page's: the two effects treat images identically |
| CameraComponent.ComponentKeepsOneLive | my-app/app/components/camera.tsx:14-17 | from the initial view with the image mounted, at most one created object URL is unrevoked after any trace |
| CameraComponent.CameraView.Click | my-app/app/components/camera.tsx:21-23 | a click builds the same request as the page's: `stop` when streaming and `start` otherwise, closing over the current flag |
| CameraComponent.CameraView.SettleToggle | my-app/app/components/camera.tsx:21-25 | the method reports a rejection exactly when the fetch threw; in that case the state is unchanged, otherwise the flag becomes the negation of the captured flag |
| CameraComponent.ToggleSettles | my-app/app/components/camera.tsx:23-24 | a thrown fetch propagates and leaves the state unchanged (no error state exists); a resolved one flips the flag whatever its status |
| Ultrasonic.LabelOf | my-app/app/components/ultrasonic.tsx:32 | the page shows "-- cm" exactly when the reading is null; any other reading, `undefined` included, is shown as a value |
| Ultrasonic.UltrasonicSensor.constructor | my-app/app/components/ultrasonic.tsx:6 | the reading starts null, so "-- cm" is shown |
| Ultrasonic.SettleSetsReading | my-app/app/components/ultrasonic.tsx:13-18 | a parsed body sets the reading to `distance_cm` verbatim, or to `undefined` when the field is absent, even after unmount; a thrown poll leaves it; polls and the interval are untouched |
| Ultrasonic.ReadingIsLatestBody | my-app/app/components/ultrasonic.tsx:9-19 | after any trace, the reading is the value carried by the latest poll whose body was parsed |
| Ultrasonic.ReadingWithoutBody | my-app/app/components/ultrasonic.tsx:16-18 | a trace in which no body was parsed leaves the reading unchanged |
| Ultrasonic.Scenario | my-app/app/components/ultrasonic.tsx:13-18 | 42 cm, then a poll that throws, then 17 cm gives 42, 42, 17; the server's timeout payload after 42 gives `undefined` |
| Ultrasonic.UltrasonicSensor.StartPoll | my-app/app/components/ultrasonic.tsx:9-11 | calling `fetchDistance` starts one more GET and changes nothing else |
| Ultrasonic.UltrasonicSensor.OnMount | my-app/app/components/ultrasonic.tsx:21-22 | mount starts one poll at once and sets the interval |
| Ultrasonic.UltrasonicSensor.OnTick | my-app/app/components/ultrasonic.tsx:22 | a tick of a set interval starts a poll |
| Ultrasonic.UltrasonicSensor.OnPollSettled | my-app/app/components/ultrasonic.tsx:13-18 | a settled poll changes the reading exactly as `ReadingAfter` says |
| Ultrasonic.UltrasonicSensor.OnUnmount | my-app/app/components/ultrasonic.tsx:23 | unmount clears the interval |
| Ultrasonic.EveryTickPolls | my-app/app/components/ultrasonic.tsx:22 | while the interval is set, n ticks start n polls, however many are still in flight |
| Ultrasonic.MountThenTicks | my-app/app/components/ultrasonic.tsx:21-22 | from the initial state, mount followed by n ticks has started n + 1 polls |
| Ultrasonic.NoPollsAfterUnmount | my-app/app/components/ultrasonic.tsx:23 | once the interval is cleared, no trace without a mount starts a poll or sets the interval again |

## Left out

- Picamera2 setup, the MJPEG encoder and `StreamingOutput.read` with its `threading.Condition` wait (camera-app/main.py:48-51, 61-65): this is hardware and cross-thread synchronisation. The camera is an opaque id, and the arrival of a frame is the input to `Broadcast`.
- asyncio scheduling: a broadcast round is one atomic step, and `stop` runs its awaited task to completion atomically. A `/start` that arrives while `stop` is still awaiting the old task is not modelled.
- A streaming loop that ends by an exception, and the re-raise of that exception from `await self.task` in `stop`: only the normal exit that follows `stop` is modelled.
- `get_distance` (camera-app/main.py:107-138): GPIO busy-wait timing and float arithmetic. Its two outcomes reach the model as a poll body with or without `distance_cm`.
- The brightness endpoints (camera-app/main.py:144-147, camera-app/LED.py) and `my-app/app/components/controls.tsx`: float scaling written to a PWM pin, and a slider that sets local state and fires an unchecked PUT.
- FastAPI routing, CORS middleware, JSX rendering, styling and the `readyState` status text.
- The reconnection policy of `react-use-websocket`, an opaque library: the model sees only the sequence of `lastMessage` values.
- `JSON.parse` is an input (`JsonParse`). A `viewers` value that is not an integer (a string, null, a fraction) is not modelled, and neither is text that parses to `null`, where reading `.viewers` throws and is caught like a parse failure.
- `Ultrasonic`: the interval is one flag, so mounting twice without an unmount in between (two live intervals) is not modelled. Poll responses are free events and are not matched to the requests that started them. A state update that lands after unmount is modelled as applied, because the code does not discard it. React then drops it for the unmounted component.
- Readings are `real`; the server's rounding to two decimals happens outside the client and is not modelled.
