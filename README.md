# mmpmod ambiguity pipeline: a Dafny model

mmpmod listens to MQTT lifecycle events from a production line. It collects
events that arrive close together into one debounce window. When a window
holds more than one event, it asks a camera-based resolver which activity
really happened. It then publishes the result as process events. This project
models the sequential logic of that pipeline and proves properties of it:

- **Listener** (`listener.dfy`). This is the MQTT callback. It keeps only
  payloads that start with the completion-transition prefix. It names each
  event after the last topic level and hands it to the analyzer. `start`
  does its work only once.
- **Analyzer** (`analyzer.dfy`, `window_text.dfy`). This is the debounce window.
  - Every arrival goes into a buffer and re-arms one pending close, 1000 ms later.
  - A close hands the buffer on as one window.
  - A one-event window goes to the unambiguous path. A larger window goes to
    the ambiguous path as a small JSON text.
  - The timer is an explicit `Fire(now)` step on a logical clock.
  - `window_text.dfy` holds `escapeJson`, the two window texts, and a reader
    for those texts. The reader proves what a JSON parser gets back from them.
- **Router** (`router.dfy`). This maps the resolver's verdict to at most one
  emitter call. Every failure on the way is swallowed.
- **Emitter** (`emitter.dfy`). This builds the records that go out.
  - The resolved record is built from the first event only.
  - In the unresolved path, every object event is flagged.
  - Sending a record is two abstract steps, in the source's order. First
    `publishes(record)` covers the XES conversion and the MQTT publish; a
    record it lets through is appended to `published`. Then `writes(record)`
    covers the append to `log.xes`; a record that also passes it is appended
    to `logged`. Only a record that passes both lets the call go on.
- **Camera helper**, both ends of its line protocol:
  - `camera_script.dfy`: the Python side, `camera.py`. It holds the camera
    state machine, the command loop that stops at the first failure, and the
    reading of commands from stdin.
  - `camera_client.dfy`: the Java side, `CameraServiceImpl`. It holds
    `runPythonCommand`'s line loop and `getFrames`' capture loop.
  - `camera_protocol.dfy`: the round trip through the pipe that joins them.
- Shared helpers are `wrappers.dfy` (Option), `text.dfy` (prefixes,
  digits, whitespace), `events.dfy` (`ProcessEvent`) and `json.dfy` (JSON
  values, objects as `seq<(string, Json)>` with Jackson's put/set semantics,
  and `toString`).

How the outside world is modelled:

- Exceptions are values. `Outcome` is `Returned(v) | Threw(e)`. A publish
  method that throws returns `ok == false`.
- Clocks are parameters: `now` for an arrival, and the instant a close fires.
- The OpenCV device is a `Device` value for each command: whether it opens,
  and what a frame read and write give.
- The Python process's output is a sequence of lines. The outcomes of the
  camera calls made in `getFrames` are inputs.
- The broker connection is a `connects` flag.

Two facts of the camera protocol follow from the source and are proved here:

- camera.py calls `logging.basicConfig(level=INFO)`
  (`camera.py:10`), so every `logging.error` writes `ERROR:root:<message>` to
  standard error.
- The Java side starts the process with its error stream redirected into
  standard output (`CameraServiceImpl.java:76`). A failure that logs therefore
  reaches `runPythonCommand` first as its log line. The exception message
  then carries `root:<message>`, and the script's own `ERROR:<message>`
  answer line stays unread (`CameraProtocol.CommandRoundTrip`, for any
  lines that follow). The process Java starts has no arguments, so it runs
  the stdin loop, which exits right after that first failure
  (`camera.py:118-123`). No further answer ever follows the leftover line,
  only the end of the stream. The line is read only by a later call that
  reaches the old reader before `ensurePythonProcess`
  (`CameraServiceImpl.java:68-70`) sees that the process has ended.

## Model

| member | source | states |
|---|---|---|
| Listener.LastIndexOf | src/main/java/ch/unisg/mmpmod/ambiguitydetector/MqttListenerServiceImpl.java:64 | the index is -1 or holds the character, and no later index holds it |
| Listener.TopicLabel | src/main/java/ch/unisg/mmpmod/ambiguitydetector/MqttListenerServiceImpl.java:64-65 | the label never contains '/', is a suffix of the topic and is preceded there by '/', and is the whole topic when the topic has no '/' |
| Listener.LabelIsLastLevel | src/main/java/ch/unisg/mmpmod/ambiguitydetector/MqttListenerServiceImpl.java:64-65 | the label is the last topic level of section 4.7 of MQTT 3.1.1 (the topic cut at every '/', empty levels included) |
| Listener.LevelsNoSlash | src/main/java/ch/unisg/mmpmod/ambiguitydetector/MqttListenerServiceImpl.java:65 | a topic without '/' is a single level |
| Listener.Levels | src/main/java/ch/unisg/mmpmod/ambiguitydetector/MqttListenerServiceImpl.java:65 | there is at least one level and no level holds a '/' |
| Listener.Detect | src/main/java/ch/unisg/mmpmod/ambiguitydetector/MqttListenerServiceImpl.java:63-67 | an event is produced exactly when the payload starts with the completion prefix; it carries the payload unchanged, the message's QoS, the arrival time and the topic label |
| Listener.MqttListener.constructor | src/main/java/ch/unisg/mmpmod/ambiguitydetector/MqttListenerServiceImpl.java:17-26 | not started, no callback, no subscription |
| Listener.MqttListener.Start | src/main/java/ch/unisg/mmpmod/ambiguitydetector/MqttListenerServiceImpl.java:28-42 | the first call sets the callback once, connects if needed and subscribes once to the configured topic and QoS, and fails (throws) when the connect fails; every later call changes nothing; the once-only invariant is kept |
| Listener.MqttListener.MessageArrived | src/main/java/ch/unisg/mmpmod/ambiguitydetector/MqttListenerServiceImpl.java:60-69 | a payload without the prefix leaves the buffer, the pending close and the last arrival unchanged; with it, exactly the detected event is appended to the buffer and, unless the scheduler is shut down, the close is re-armed for now + 1000 (after shutdown the old close is cancelled and none is pending); no window is handed on and the scheduler state is kept; the call completes (ok) exactly when no event is detected or the scheduler is still running, since scheduling on a shut-down scheduler throws and nothing catches it |
| Analyzer.AmbiguityAnalyzer.constructor | src/main/java/ch/unisg/mmpmod/ambiguitydetector/AmbiguityAnalyzerServiceImpl.java:29-37 | empty buffer, no pending close, nothing handed on |
| Analyzer.AmbiguityAnalyzer.Cache | src/main/java/ch/unisg/mmpmod/ambiguitydetector/AmbiguityAnalyzerServiceImpl.java:39-48 | the event is appended at the end of the buffer with earlier entries unchanged; the previous pending close is cancelled and exactly one new close is due at now + 1000; after shutdown scheduling is refused and no close is pending; conservation and the window log are kept |
| Analyzer.AmbiguityAnalyzer.CloseWindowSafely | src/main/java/ch/unisg/mmpmod/ambiguitydetector/AmbiguityAnalyzerServiceImpl.java:50-63 | on an empty buffer nothing is handed on and nothing changes; otherwise the buffer, in arrival order, is handed on as one window with its router call, and the buffer ends empty with no pending close |
| Analyzer.AmbiguityAnalyzer.Fire | src/main/java/ch/unisg/mmpmod/ambiguitydetector/AmbiguityAnalyzerServiceImpl.java:46-63 | the due close hands on the buffer as CloseWindowSafely does; before shutdown the window is non-empty and no event came in the 1000 ms before the close ran |
| Analyzer.AmbiguityAnalyzer.Shutdown | src/main/java/ch/unisg/mmpmod/ambiguitydetector/AmbiguityAnalyzerServiceImpl.java:118-122 | a non-empty buffer is handed on exactly as by a close, then the scheduler is shut down |
| Analyzer.CallFor | src/main/java/ch/unisg/mmpmod/ambiguitydetector/AmbiguityAnalyzerServiceImpl.java:65-88 | a window goes to the unambiguous path exactly when it holds one event; the window id is "ID" followed by the first event's instant |
| Analyzer.OnWindowClosed | src/main/java/ch/unisg/mmpmod/ambiguitydetector/AmbiguityAnalyzerServiceImpl.java:65-107 | the router call the StringBuilder code produces is the one CallFor describes |
| Analyzer.CallCarriesWindow | src/main/java/ch/unisg/mmpmod/ambiguitydetector/AmbiguityAnalyzerServiceImpl.java:78-106 | when every label is encodable, the text handed on reads back as exactly the window's events: one object for a singleton, otherwise an array with one object per event in window order |
| Analyzer.CallRejectsWindow | src/main/java/ch/unisg/mmpmod/ambiguitydetector/AmbiguityAnalyzerServiceImpl.java:78-116 | when any label of any window holds a raw control character other than newline, carriage return and tab, the text handed on does not read (WindowText.DecodeWindow gives None) |
| Analyzer.CallReadsIff | src/main/java/ch/unisg/mmpmod/ambiguitydetector/AmbiguityAnalyzerServiceImpl.java:78-116 | the text a window hands on reads back exactly when every label is encodable |
| Analyzer.FlattenSnoc | src/main/java/ch/unisg/mmpmod/ambiguitydetector/AmbiguityAnalyzerServiceImpl.java:41-56 | appending a window to the log appends its events to the flattened log (the conservation step) |
| Analyzer.Split | src/main/java/ch/unisg/mmpmod/ambiguitydetector/AmbiguityAnalyzerServiceImpl.java:39-63 | reference debounce: the arrivals cut wherever two consecutive ones are 1000 ms or more apart; no window is empty |
| Analyzer.SplitConserves | src/main/java/ch/unisg/mmpmod/ambiguitydetector/AmbiguityAnalyzerServiceImpl.java:41-56 | the reference windows hold every arrival exactly once, in order |
| Analyzer.SplitStep | src/main/java/ch/unisg/mmpmod/ambiguitydetector/AmbiguityAnalyzerServiceImpl.java:43-46 | an arrival opens a new window exactly when it comes 1000 ms or more after the previous one |
| Analyzer.IdealArrival | src/main/java/ch/unisg/mmpmod/ambiguitydetector/AmbiguityAnalyzerServiceImpl.java:39-63 | with the close firing when due, the windows handed on plus the open buffer stay equal to the reference split of the arrivals |
| Analyzer.RunIdealSchedule | src/main/java/ch/unisg/mmpmod/ambiguitydetector/AmbiguityAnalyzerServiceImpl.java:39-122 | under an ideal timer, the router calls are exactly one per reference window, in order |
| WindowText.EscapeJsonPerChar | src/main/java/ch/unisg/mmpmod/ambiguitydetector/AmbiguityAnalyzerServiceImpl.java:109-116 | because backslash is replaced first, the replace chain escapes each character on its own, exactly once |
| WindowText.ReplaceChain | src/main/java/ch/unisg/mmpmod/ambiguitydetector/AmbiguityAnalyzerServiceImpl.java:111-115 | the replace chain leaves no raw newline, carriage return or tab |
| WindowText.EscapeJson | src/main/java/ch/unisg/mmpmod/ambiguitydetector/AmbiguityAnalyzerServiceImpl.java:109-116 | null becomes the empty text; any other text is escaped character by character |
| WindowText.ReplaceChainAppend | src/main/java/ch/unisg/mmpmod/ambiguitydetector/AmbiguityAnalyzerServiceImpl.java:111-115 | the replace chain distributes over concatenation |
| WindowText.ReplaceChainChar | src/main/java/ch/unisg/mmpmod/ambiguitydetector/AmbiguityAnalyzerServiceImpl.java:111-115 | on one character the chain gives its escape sequence: only backslash, quote, newline, carriage return and tab change |
| WindowText.EscapeJsonNoRawControl | src/main/java/ch/unisg/mmpmod/ambiguitydetector/AmbiguityAnalyzerServiceImpl.java:109-116 | the escaped text, null included, has no raw newline, carriage return or tab |
| WindowText.EscapeJsonLeavesOtherControls | src/main/java/ch/unisg/mmpmod/ambiguitydetector/AmbiguityAnalyzerServiceImpl.java:111-115 | a text holding no backslash, quote, newline, carriage return or tab comes out unchanged, so U+0001 and the other control characters pass through raw, although section 7 of RFC 8259 requires them escaped |
| WindowText.ParseStringRejects | src/main/java/ch/unisg/mmpmod/ambiguitydetector/AmbiguityAnalyzerServiceImpl.java:109-116 | an escaped label holding a raw control character, at any position, does not read as a JSON string |
| WindowText.SingleTextRejected | src/main/java/ch/unisg/mmpmod/ambiguitydetector/AmbiguityAnalyzerServiceImpl.java:73-85 | the one-event document with such a label does not read (DecodeWindow gives None) |
| WindowText.AmbiguousTextRejected | src/main/java/ch/unisg/mmpmod/ambiguitydetector/AmbiguityAnalyzerServiceImpl.java:93-105 | the many-event document does not read when any of its labels holds such a character |
| WindowText.WindowId | src/main/java/ch/unisg/mmpmod/ambiguitydetector/AmbiguityAnalyzerServiceImpl.java:74-88 | the id is "ID" followed by the first event's instant |
| WindowText.SingleText | src/main/java/ch/unisg/mmpmod/ambiguitydetector/AmbiguityAnalyzerServiceImpl.java:77-82 | the one-event document opens with {"events": and one object, and closes the object and the document |
| WindowText.Items | src/main/java/ch/unisg/mmpmod/ambiguitydetector/AmbiguityAnalyzerServiceImpl.java:94-104 | the comma-separated objects are empty exactly for an empty window, and start with an object brace otherwise |
| WindowText.AmbiguousText | src/main/java/ch/unisg/mmpmod/ambiguitydetector/AmbiguityAnalyzerServiceImpl.java:93-105 | the many-event document opens with {"events": and an array, and closes the array and the document |
| WindowText.ItemsSnoc | src/main/java/ch/unisg/mmpmod/ambiguitydetector/AmbiguityAnalyzerServiceImpl.java:94-104 | one object per event in window order: adding an event adds a comma and its object after the earlier ones, which stay unchanged; a comma goes only between neighbours |
| WindowText.BuildAmbiguousText | src/main/java/ch/unisg/mmpmod/ambiguitydetector/AmbiguityAnalyzerServiceImpl.java:93-105 | the StringBuilder loop produces the array document: one object per event, with commas only between elements |
| WindowText.MultipleLatency | src/main/java/ch/unisg/mmpmod/ambiguitydetector/AmbiguityAnalyzerServiceImpl.java:91 | the logged latency, as written, is at most the window size whenever the last event is no earlier than the first |
| WindowText.IntendedMultipleLatency | src/main/java/ch/unisg/mmpmod/ambiguitydetector/AmbiguityAnalyzerServiceImpl.java:91 | the corrected latency exceeds the window size by exactly the time from the first to the last event, and equals the one-event latency for a singleton |
| WindowText.MultipleLatencySign | src/main/java/ch/unisg/mmpmod/ambiguitydetector/AmbiguityAnalyzerServiceImpl.java:91 | two events 500 ms apart: 500 as written, 1500 as intended |
| WindowText.ParseStringRoundTrip | src/main/java/ch/unisg/mmpmod/ambiguitydetector/AmbiguityAnalyzerServiceImpl.java:109-116 | an escaped label reads back as the label |
| WindowText.ParseItemRoundTrip | src/main/java/ch/unisg/mmpmod/ambiguitydetector/AmbiguityAnalyzerServiceImpl.java:96-99 | one event object reads back as that event's label and instant |
| WindowText.ParseItemsRoundTrip | src/main/java/ch/unisg/mmpmod/ambiguitydetector/AmbiguityAnalyzerServiceImpl.java:94-104 | the comma-separated objects read back as one object per event, in order |
| WindowText.SingleTextRoundTrip | src/main/java/ch/unisg/mmpmod/ambiguitydetector/AmbiguityAnalyzerServiceImpl.java:78-83 | the one-event document reads back with "events" holding that event's object |
| WindowText.AmbiguousTextRoundTrip | src/main/java/ch/unisg/mmpmod/ambiguitydetector/AmbiguityAnalyzerServiceImpl.java:93-105 | the many-event document reads back as an array of the window's events, in order |
| WindowText.DecodeWindow | src/main/java/ch/unisg/mmpmod/ambiguitydetector/AmbiguityAnalyzerServiceImpl.java:78-105 | a document that reads starts with {"events": and reads as an object whose only key is "events" |
| Router.ResolveAmbiguity | src/main/java/ch/unisg/mmpmod/processeventrouter/RouterServiceImpl.java:27-59 | at most one emitter call; none for a null or unparsable output; a call is always a resolved or unresolved publish, and it passes json_events unchanged |
| Router.ResolvedIff | src/main/java/ch/unisg/mmpmod/processeventrouter/RouterServiceImpl.java:32-40 | a resolved publish happens if and only if the verdict is the JSON literal true and both activity and confidence are present; the activity goes on as its JSON text |
| Router.UnresolvedIff | src/main/java/ch/unisg/mmpmod/processeventrouter/RouterServiceImpl.java:32-47 | an unresolved publish of the unchanged input happens if and only if the verdict is the JSON literal false |
| Router.OtherVerdictsEmitNothing | src/main/java/ch/unisg/mmpmod/processeventrouter/RouterServiceImpl.java:32-51 | any verdict other than the two literals (a string, number, null, array or object) emits nothing |
| Router.QuotedTrueEmitsNothing | src/main/java/ch/unisg/mmpmod/processeventrouter/RouterServiceImpl.java:32-34 | the quoted string "true" is not the literal true and emits nothing |
| Router.ActivityKeepsQuotes | src/main/java/ch/unisg/mmpmod/processeventrouter/RouterServiceImpl.java:36-40 | a plain string activity is passed with its surrounding quotes |
| Router.PublishUnambiguousEvent | src/main/java/ch/unisg/mmpmod/processeventrouter/RouterServiceImpl.java:61-70 | the event text is forwarded unchanged, exactly once |
| Router.Route | src/main/java/ch/unisg/mmpmod/processeventrouter/RouterServiceImpl.java:27-70 | a singleton window's text goes on unchanged to the unambiguous publish; an ambiguous window never reaches it; at most one call per window |
| Emitter.StripEnds | src/main/java/ch/unisg/mmpmod/processeventemitter/EmitterServiceImpl.java:110 | substring(1, length - 1) succeeds exactly on two or more characters and removes the first and last one |
| Emitter.CopyFields | src/main/java/ch/unisg/mmpmod/processeventemitter/EmitterServiceImpl.java:113-117 | the copy loop only adds fields, and never creates a duplicate key |
| Emitter.LabelOnly | src/main/java/ch/unisg/mmpmod/processeventemitter/EmitterServiceImpl.java:109-110 | the record starts with just the stripped label |
| Emitter.CopyKeys | src/main/java/ch/unisg/mmpmod/processeventemitter/EmitterServiceImpl.java:113-117 | copying adds every key of the first event except "label" |
| Emitter.CopyLookup | src/main/java/ch/unisg/mmpmod/processeventemitter/EmitterServiceImpl.java:113-117 | each copied key holds the first event's value; "label" and keys it lacks keep the record's value |
| Emitter.ResolvedRecordShape | src/main/java/ch/unisg/mmpmod/processeventemitter/EmitterServiceImpl.java:108-120 | the record exists, has no duplicate key, has "label" first, and its keys are the first event's plus "label" and "ambiguous" |
| Emitter.ResolvedRecordValues | src/main/java/ch/unisg/mmpmod/processeventemitter/EmitterServiceImpl.java:110-118 | "label" holds the stripped activity; "ambiguous" is false, overriding a copied one; every other key holds the first event's value |
| Emitter.ResolvedRecordFirstOnly | src/main/java/ch/unisg/mmpmod/processeventemitter/EmitterServiceImpl.java:112 | no event but the first is consulted |
| Emitter.ResolvedRecordFails | src/main/java/ch/unisg/mmpmod/processeventemitter/EmitterServiceImpl.java:110-112 | the record fails exactly for an activity shorter than two characters or an empty array |
| Emitter.ResolvedRecord | src/main/java/ch/unisg/mmpmod/processeventemitter/EmitterServiceImpl.java:108-120 | createResolvedEvent fails exactly for an activity shorter than two characters or an empty events array; a record it builds has "ambiguous" false |
| Emitter.ResolvedFor | src/main/java/ch/unisg/mmpmod/processeventemitter/EmitterServiceImpl.java:45-49 | a resolved record is built only from an "events" array, and then it is the one createResolvedEvent builds from it |
| Emitter.CreateResolvedEvent | src/main/java/ch/unisg/mmpmod/processeventemitter/EmitterServiceImpl.java:108-120 | the put/set loop builds the record ResolvedRecord describes |
| Emitter.Flag | src/main/java/ch/unisg/mmpmod/processeventemitter/EmitterServiceImpl.java:86 | the flagged object has "ambiguous" true and every other field unchanged |
| Emitter.FlagAllAppend | src/main/java/ch/unisg/mmpmod/processeventemitter/EmitterServiceImpl.java:83-105 | flagging works element by element, in array order |
| Emitter.FlagAllObjects | src/main/java/ch/unisg/mmpmod/processeventemitter/EmitterServiceImpl.java:83-86 | every record sent is a flagged object; an all-object array gives one record per element |
| Emitter.Accepted | src/main/java/ch/unisg/mmpmod/processeventemitter/EmitterServiceImpl.java:87-103 | the records fully sent (published and written) are a prefix of those offered, and the next offered one failed its publish or its write |
| Emitter.FlagStop | src/main/java/ch/unisg/mmpmod/processeventemitter/EmitterServiceImpl.java:93-103 | the first flagged object whose publish or write fails ends the loop; later elements are neither published nor written |
| Emitter.AcceptedAll | src/main/java/ch/unisg/mmpmod/processeventemitter/EmitterServiceImpl.java:83-105 | when every record is published and written, all of them are fully sent |
| Emitter.FlagAll | src/main/java/ch/unisg/mmpmod/processeventemitter/EmitterServiceImpl.java:83-86 | the unresolved loop offers at most one record per array element |
| Emitter.PublishedOf | src/main/java/ch/unisg/mmpmod/processeventemitter/EmitterServiceImpl.java:87-103 | the records published are those fully sent, plus the first failing one when its publish succeeded (its write failed); they are a prefix of those offered |
| Emitter.PublishedStop | src/main/java/ch/unisg/mmpmod/processeventemitter/EmitterServiceImpl.java:89-103 | when the flagged object at i is the first to fail, the published records are the earlier flagged objects, plus that object exactly when its publish succeeded |
| Emitter.EmitterService.constructor | src/main/java/ch/unisg/mmpmod/processeventemitter/EmitterServiceImpl.java:30-39 | nothing published and nothing written yet |
| Emitter.EmitterService.Publish | src/main/java/ch/unisg/mmpmod/processeventemitter/EmitterServiceImpl.java:50-55 | the record is appended to the published records exactly when its conversion and publish succeed, and then to log.xes exactly when the write succeeds too; the call succeeds exactly when both do |
| Emitter.EmitterService.PublishResolvedAmbiguousEvent | src/main/java/ch/unisg/mmpmod/processeventemitter/EmitterServiceImpl.java:41-61 | only the resolved record, and only when it can be built, is published (if its publish succeeds) and written (if the write succeeds too); the call succeeds exactly when it is built, published and written |
| Emitter.EmitterService.HandleUnresolvedAmbiguity | src/main/java/ch/unisg/mmpmod/processeventemitter/EmitterServiceImpl.java:81-106 | log.xes grows by the flagged objects, in order, up to the first one whose publish or write fails; the published records grow by the same objects plus that one when only its write failed; the call succeeds exactly when all are written |
| Emitter.EmitterService.PublishUnresolvedAmbiguousEvents | src/main/java/ch/unisg/mmpmod/processeventemitter/EmitterServiceImpl.java:63-79 | with an "events" array, its objects are published and written as HandleUnresolvedAmbiguity says; without one the call fails and nothing is published or written |
| Emitter.EmitterService.PublishUnambiguousEvent | src/main/java/ch/unisg/mmpmod/processeventemitter/EmitterServiceImpl.java:122-142 | only the "events" sub-node is published (if its publish succeeds) and written (if the write succeeds too); a missing node or input fails the call with nothing published or written |
| Json.Lookup | src/main/java/ch/unisg/mmpmod/processeventemitter/EmitterServiceImpl.java:112-115 | a field is found exactly when its key is present, and the value found is an entry of the object |
| Json.Put | src/main/java/ch/unisg/mmpmod/processeventemitter/EmitterServiceImpl.java:110-118 | ObjectNode.put/set adds the key at the end when new, and keeps the length when the key is present |
| Json.PutLookup | src/main/java/ch/unisg/mmpmod/processeventemitter/EmitterServiceImpl.java:115-118 | after put the key holds the new value and every other key is unchanged |
| Json.PutShape | src/main/java/ch/unisg/mmpmod/processeventemitter/EmitterServiceImpl.java:115-118 | replacing a present key keeps every key in its place, and put never creates a duplicate key |
| Json.LookupUnique | src/main/java/ch/unisg/mmpmod/processeventemitter/EmitterServiceImpl.java:112-118 | in an object without repeated keys, every stored entry is what get returns for its key |
| Json.Get | src/main/java/ch/unisg/mmpmod/processeventrouter/RouterServiceImpl.java:32-37 | JsonNode.get gives a value exactly for an object holding the key |
| Json.RenderBool | src/main/java/ch/unisg/mmpmod/processeventrouter/RouterServiceImpl.java:32-44 | toString is "true" (or "false") exactly for the boolean literal |
| Json.Render | src/main/java/ch/unisg/mmpmod/processeventrouter/RouterServiceImpl.java:32-44 | toString is never empty; a string renders between quotes, an array between brackets, an object between braces |
| Json.EscapePlain | src/main/java/ch/unisg/mmpmod/processeventrouter/RouterServiceImpl.java:36 | a string without quote, backslash or control character renders unescaped between quotes |
| CameraScript.StripIdempotent | src/main/java/ch/unisg/mmpmod/ambiguityresolver/camera/camera.py:100-105 | str.strip applied twice equals applied once |
| CameraScript.StripLeft | src/main/java/ch/unisg/mmpmod/ambiguityresolver/camera/camera.py:73 | str.lstrip leaves a suffix of the text that does not start with whitespace |
| CameraScript.StripRight | src/main/java/ch/unisg/mmpmod/ambiguityresolver/camera/camera.py:73 | str.rstrip leaves a prefix of the text that does not end with whitespace |
| CameraScript.StripLeftSpaces | src/main/java/ch/unisg/mmpmod/ambiguityresolver/camera/camera.py:73 | leading whitespace does not matter to strip |
| CameraScript.StripRightSpaces | src/main/java/ch/unisg/mmpmod/ambiguityresolver/camera/camera.py:73 | trailing whitespace does not matter to strip |
| CameraScript.LowerChar | src/main/java/ch/unisg/mmpmod/ambiguityresolver/camera/camera.py:73 | the result is never an upper-case letter; an upper-case letter becomes the lower-case letter at the same place in the alphabet; any other character is kept |
| CameraScript.Lower | src/main/java/ch/unisg/mmpmod/ambiguityresolver/camera/camera.py:73 | the length is kept, no upper-case letter is left, every other character is kept in place, and each upper-case letter becomes its lower-case letter |
| CameraScript.LowerIdempotent | src/main/java/ch/unisg/mmpmod/ambiguityresolver/camera/camera.py:73 | lower-casing twice equals lower-casing once |
| CameraScript.NormalizeShape | src/main/java/ch/unisg/mmpmod/ambiguityresolver/camera/camera.py:73 | strip().lower() is as long as the stripped text, holds no upper-case letter, neither starts nor ends with whitespace, and normalising it again gives it back |
| CameraScript.NormalizeStart | src/main/java/ch/unisg/mmpmod/ambiguityresolver/camera/camera.py:73 | " Start " normalises to "start" |
| CameraScript.Dispatch | src/main/java/ch/unisg/mmpmod/ambiguityresolver/camera/camera.py:72-83 | a command is unknown exactly when its normalised text is not one of the five words; exit and quit both mean exit |
| CameraScript.ExecuteCases | src/main/java/ch/unisg/mmpmod/ambiguityresolver/camera/camera.py:22-83 | start on an open camera succeeds without reopening; a failed open leaves no camera and fails; stop always succeeds and leaves no camera; capture without a camera fails and changes nothing; exit stops the camera; unknown fails with "Unknown command: " and the normalised text and changes nothing; at most one line is logged, only for a failure and carrying its message |
| CameraScript.ResponseLine | src/main/java/ch/unisg/mmpmod/ambiguityresolver/camera/camera.py:89-92 | a success prints an OK line that is not an ERROR line, "OK:"+payload for a real payload and "OK" otherwise; a failure prints "ERROR:" followed by the payload |
| CameraScript.HandleUnfold | src/main/java/ch/unisg/mmpmod/ambiguityresolver/camera/camera.py:87-97 | one command: exit ends the run with 0, a failure ends it with 1, any other success goes on to the next command |
| CameraScript.HandleErrorLast | src/main/java/ch/unisg/mmpmod/ambiguityresolver/camera/camera.py:86-97 | at most one ERROR line is printed and it is the last; the code is 1 exactly when it is there and 0 otherwise; at most one line is printed per remaining command |
| CameraScript.HandlePrintedLines | src/main/java/ch/unisg/mmpmod/ambiguityresolver/camera/camera.py:86-97 | handle_commands prints at least one line exactly when a command remains |
| CameraScript.ExitStops | src/main/java/ch/unisg/mmpmod/ambiguityresolver/camera/camera.py:80-94 | exit or quit leaves no camera, prints OK and returns 0 without running later commands |
| CameraScript.FailureStops | src/main/java/ch/unisg/mmpmod/ambiguityresolver/camera/camera.py:90-96 | a failing command is the last one run: one ERROR line and code 1 |
| CameraScript.ReadCommandsAppend | src/main/java/ch/unisg/mmpmod/ambiguityresolver/camera/camera.py:100-105 | commands are read line by line, in order |
| CameraScript.ReadCommandsClean | src/main/java/ch/unisg/mmpmod/ambiguityresolver/camera/camera.py:100-105 | every command read is non-empty and already stripped |
| CameraScript.ReadCommands | src/main/java/ch/unisg/mmpmod/ambiguityresolver/camera/camera.py:100-105 | at most one command per input line, and none empty |
| CameraScript.CameraProcess.constructor | src/main/java/ch/unisg/mmpmod/ambiguityresolver/camera/camera.py:19 | no camera, nothing printed |
| CameraScript.CameraProcess.LogError | src/main/java/ch/unisg/mmpmod/ambiguityresolver/camera/camera.py:10-33 | logging.error writes "ERROR:root:" and the message to the error stream only |
| CameraScript.CameraProcess.StartCamera | src/main/java/ch/unisg/mmpmod/ambiguityresolver/camera/camera.py:22-35 | the camera and the result follow the start step of the state machine; a failure is logged |
| CameraScript.CameraProcess.StopCamera | src/main/java/ch/unisg/mmpmod/ambiguityresolver/camera/camera.py:38-46 | no camera afterwards; success, with "already stopped" when there was none |
| CameraScript.CameraProcess.CaptureFrame | src/main/java/ch/unisg/mmpmod/ambiguityresolver/camera/camera.py:49-69 | without a camera it fails; a failed read or write fails with its message; otherwise it returns the saved path; every failure is logged |
| CameraScript.CameraProcess.ExecuteCommand | src/main/java/ch/unisg/mmpmod/ambiguityresolver/camera/camera.py:72-83 | the camera, the result and the log follow the state machine for the dispatched command |
| CameraScript.CameraProcess.PrintLine | src/main/java/ch/unisg/mmpmod/ambiguityresolver/camera/camera.py:90-92 | print appends one line to standard output and to the merged stream |
| CameraScript.CameraProcess.Serve | src/main/java/ch/unisg/mmpmod/ambiguityresolver/camera/camera.py:88-92 | one loop step: the camera, the result and the log follow Execute, and exactly its answer line is printed after its log line |
| CameraScript.CameraProcess.HandleCommands | src/main/java/ch/unisg/mmpmod/ambiguityresolver/camera/camera.py:86-97 | the loop ends with the camera, the printed lines, the merged stream and the return code of the handle_commands run over the same commands |
| CameraClient.OkNotError | src/main/java/ch/unisg/mmpmod/ambiguityresolver/camera/CameraServiceImpl.java:97-106 | no line is both an OK line and an ERROR line |
| CameraClient.Classify | src/main/java/ch/unisg/mmpmod/ambiguityresolver/camera/CameraServiceImpl.java:97-106 | only an OK or ERROR: line decides, and an exception it decides is the command-failed one |
| CameraClient.ClassifyCases | src/main/java/ch/unisg/mmpmod/ambiguityresolver/camera/CameraServiceImpl.java:97-111 | "OK" returns ""; "OK:"+p returns p; any other OK line returns the whole line; "ERROR:"+m throws with m in the message; exactly the lines that are neither decide nothing |
| CameraClient.RespondHead | src/main/java/ch/unisg/mmpmod/ambiguityresolver/camera/CameraServiceImpl.java:96-108 | a deciding first line decides at once, and the rest stays unread |
| CameraClient.RespondSkipsUndecided | src/main/java/ch/unisg/mmpmod/ambiguityresolver/camera/CameraServiceImpl.java:110-111 | only lines that decide nothing are logged and skipped |
| CameraClient.RespondShape | src/main/java/ch/unisg/mmpmod/ambiguityresolver/camera/CameraServiceImpl.java:96-114 | either the stream ran out, with every line logged and the process-ended exception, or the first deciding line gave the outcome, the lines before it were logged and the lines after it are left |
| CameraClient.RespondFirstDecides | src/main/java/ch/unisg/mmpmod/ambiguityresolver/camera/CameraServiceImpl.java:96-111 | after any number of log lines, the first OK or ERROR line decides, whatever follows |
| CameraClient.RespondNoAnswer | src/main/java/ch/unisg/mmpmod/ambiguityresolver/camera/CameraServiceImpl.java:114 | a stream ending without an OK or ERROR line throws IllegalStateException naming the command |
| CameraClient.PythonChannel.constructor | src/main/java/ch/unisg/mmpmod/ambiguityresolver/camera/CameraServiceImpl.java:76-80 | the given output is pending; nothing sent or logged |
| CameraClient.PythonChannel.RunPythonCommand | src/main/java/ch/unisg/mmpmod/ambiguityresolver/camera/CameraServiceImpl.java:88-115 | the command is sent once; the line loop returns or throws what Respond gives for the pending output, logs the skipped lines and consumes exactly the lines up to the deciding one |
| CameraClient.PythonChannel.StartCamera | src/main/java/ch/unisg/mmpmod/ambiguityresolver/camera/CameraServiceImpl.java:117-119 | runs "start" |
| CameraClient.PythonChannel.StopCamera | src/main/java/ch/unisg/mmpmod/ambiguityresolver/camera/CameraServiceImpl.java:120-122 | runs "stop" |
| CameraClient.PythonChannel.CaptureFrame | src/main/java/ch/unisg/mmpmod/ambiguityresolver/camera/CameraServiceImpl.java:123-125 | runs "capture" |
| CameraClient.Captures | src/main/java/ch/unisg/mmpmod/ambiguityresolver/camera/CameraServiceImpl.java:148-158 | the loop keeps only non-blank paths, at most one per remaining attempt |
| CameraClient.CaptureLoop | src/main/java/ch/unisg/mmpmod/ambiguityresolver/camera/CameraServiceImpl.java:148-158 | the for loop over the capture attempts ends with the paths, the actions and the exception Captures describes |
| CameraClient.GetFramesSpec | src/main/java/ch/unisg/mmpmod/ambiguityresolver/camera/CameraServiceImpl.java:137-165 | start is sent first; a returned list holds only non-blank paths, at most numberOfFrames of them; a start that throws is the result and nothing else is sent; a stop that throws overrides the result |
| CameraClient.GetFrames | src/main/java/ch/unisg/mmpmod/ambiguityresolver/camera/CameraServiceImpl.java:137-165 | the for loop with its started flag and finally block returns, throws and acts as GetFramesSpec says |
| CameraClient.CountsAppend | src/main/java/ch/unisg/mmpmod/ambiguityresolver/camera/CameraServiceImpl.java:148-158 | pauses and capture calls add up over concatenated action logs |
| CameraClient.CapturesNormal | src/main/java/ch/unisg/mmpmod/ambiguityresolver/camera/CameraServiceImpl.java:148-158 | a loop with no exception keeps the usable paths in capture order, captures once per attempt, and pauses once after each usable capture that is not the last attempt, for the configured time |
| CameraClient.StopIffStarted | src/main/java/ch/unisg/mmpmod/ambiguityresolver/camera/CameraServiceImpl.java:138-163 | stop is sent if and only if start returned, and then as the last action |
| CameraClient.GetFramesNormal | src/main/java/ch/unisg/mmpmod/ambiguityresolver/camera/CameraServiceImpl.java:137-165 | when start and stop return, the result is the usable paths in order, every attempt captured, with the pauses CapturesNormal gives |
| CameraClient.CaptureFailureStops | src/main/java/ch/unisg/mmpmod/ambiguityresolver/camera/CameraServiceImpl.java:149-163 | a capture that throws still stops the camera, and its exception is the result |
| CameraClient.BadConfigurationStops | src/main/java/ch/unisg/mmpmod/ambiguityresolver/camera/CameraServiceImpl.java:145-163 | a configuration value that does not parse throws after start and before any capture, and stop still runs |
| CameraClient.BlankSkipsPause | src/main/java/ch/unisg/mmpmod/ambiguityresolver/camera/CameraServiceImpl.java:150-153 | a blank path is not kept and no pause follows it |
| CameraProtocol.LineEnd | src/main/java/ch/unisg/mmpmod/ambiguityresolver/camera/CameraServiceImpl.java:96 | the first line ends at the first line terminator, or at the end of the text |
| CameraProtocol.ReadLines | src/main/java/ch/unisg/mmpmod/ambiguityresolver/camera/CameraServiceImpl.java:96 | readLine yields no line for an empty stream and never a line holding a line terminator |
| CameraProtocol.ReadPrinted | src/main/java/ch/unisg/mmpmod/ambiguityresolver/camera/camera.py:90-92 | reading back the printed lines gives those lines when none has a line break inside |
| CameraProtocol.Printed | src/main/java/ch/unisg/mmpmod/ambiguityresolver/camera/camera.py:90-92 | printing writes at least one character per line, nothing for no lines, and ends with a newline |
| CameraProtocol.PrintedAppend | src/main/java/ch/unisg/mmpmod/ambiguityresolver/camera/camera.py:90-92 | printing two batches of lines writes their texts one after the other |
| CameraProtocol.AnswerRoundTrip | src/main/java/ch/unisg/mmpmod/ambiguityresolver/camera/camera.py:89-92 | an answer line parses back on the Java side: a success gives the payload ("" for none or for exit), a failure throws with the payload |
| CameraProtocol.LogLineDecides | src/main/java/ch/unisg/mmpmod/ambiguityresolver/camera/camera.py:10-33 | the error log line, merged into the pipe, decides first: the exception message is "root:" and the logged message |
| CameraProtocol.CommandRoundTrip | src/main/java/ch/unisg/mmpmod/ambiguityresolver/camera/camera.py:86-97 | one command end to end: a success returns the payload; an unknown command throws with its payload; a logged failure throws with "root:" and the payload and leaves its ERROR answer unread before later output |
| CameraProtocol.BrokenPayload | src/main/java/ch/unisg/mmpmod/ambiguityresolver/camera/camera.py:90 | a payload holding a newline comes back cut at the break, and its tail is left for the next command |
| CameraProtocol.StartWord | src/main/java/ch/unisg/mmpmod/ambiguityresolver/camera/CameraServiceImpl.java:118 | the "start" the Java side sends is the script's start command |
| CameraProtocol.CaptureWord | src/main/java/ch/unisg/mmpmod/ambiguityresolver/camera/CameraServiceImpl.java:124 | the "capture" the Java side sends is the script's capture command |
| CameraProtocol.StopWord | src/main/java/ch/unisg/mmpmod/ambiguityresolver/camera/CameraServiceImpl.java:121 | the "stop" the Java side sends is the script's stop command |
| Events.InstantText | src/main/java/ch/unisg/mmpmod/ambiguitydetector/ProcessEvent.java:5 | the instant's text is non-empty and made of digits and '-' |

## Left out

- Threads and locks are left out: the scheduler thread, `synchronized`, the
  `AtomicBoolean`, and a `cancel(false)` that races a close already running.
  Each call is one atomic step.
- The timer is the explicit `Fire(now)` step. Its model assumes that a close
  runs no earlier than its deadline.
- Wall-clock time is left out: `System.currentTimeMillis`, `Instant.now` as a
  source and the measured latencies. Times are parameters.
- The logged latency values are modelled as functions, but the calls that
  log them are not.
- File and console output is left out: `latencies.csv`, `confidence.csv`,
  `log.xes`, `printf`/`println` and the loggers. Their failures cannot
  change any modelled result, except the emitter's `log.xes` write, which
  is the abstract `writes`.
- `Events.InstantText`: `Instant.toString` is rendered as decimal epoch
  milliseconds, not ISO-8601. Only the `"ID"` prefix and the order of the
  text parts are claimed.
- Jackson and XES are not modelled.
  - The router and emitter take the parsed tree. Only the analyzer's own
    documents get a proven reader.
  - Jackson's `toString` is modelled with its escaping for plain strings only.
  - `JsonToXesMapper` and `MqttService.publish` are the abstract `publishes`.
  - The emitter's failures are all called a thrown exception, without
    telling the exception types apart.
- `HandleUnresolvedAmbiguity`: the in-place `put` on the shared `ArrayNode`
  is modelled on values. The model does not capture the caller's tree being
  changed.
- Camera code left out:
  - the process management in `CameraServiceImpl`: `ensurePythonProcess`,
    `shutdownPythonProcess`, `resolveConfiguredPath`;
  - the 300 ms sleep after start, and `waitBeforeNextFrame`'s interrupt
    handling. Pauses are logged as actions.
- `CameraScript.Lower`: only ASCII letters are lower-cased, while Python's
  `str.lower` covers all of Unicode. The five command words are ASCII.
- `CameraScript.CameraProcess`: the camera is open or absent. It does not
  model an object that exists but is not opened, which can only follow a
  lost device.
- camera.py code left out:
  - `main` (argparse, `sys.exit`), including its stdin loop, which exits the
    process on the first failure and compares the un-lower-cased command
    with exit/quit;
  - the timestamped file name, and cv2's capture and write, which are
    the `Device` input;
  - the YAML config and the save directory.
- `CameraClient.GetFrames`: the outcome of each call into the helper
  process is an input sequence, not derived from the process output. An
  exhausted sequence stands for the process having ended.
- `Listener.MqttListener.Start`: `client.connect` is the `connects` flag, and
  a failing `subscribe` is not modelled.
- `Listener.MqttListener.MessageArrived`: the payload is taken as already
  decoded text. UTF-8 decoding is not modelled.
- Other listener code left out: `stop`, `connectionLost` and
  `deliveryComplete`, which only log or close the client.
- Left out as plumbing or library wrappers, outside this model: the
  MQTT service and its configuration (`MqttServiceImpl`, `MqttConfig`,
  `MqttProperties`), the ML inference services and scripts, and the resolver
  orchestration. Their results enter only as the router's `ResolverOutput`.

## Findings

| source | as written | input that shows it | evidently intended | confidence | as-written member | corrected member |
|---|---|---|---|---|---|---|
| src/main/java/ch/unisg/mmpmod/ambiguitydetector/AmbiguityAnalyzerServiceImpl.java:91 | latency = first.receivedAt − last.receivedAt + windowSize, which is at most windowSize for any window in arrival order | a window of two events at 0 ms and 500 ms logs 500 | the time from the first arrival to the close, last − first + windowSize (1500 here): the value is named latency, the log line before it (lines 89-90) names the first and last arrival, and for one event it is windowSize, as handleSingleEvent logs at line 75; as written it shrinks as the window grows | not executed | WindowText.MultipleLatency (witness WindowText.MultipleLatencySign) | WindowText.IntendedMultipleLatency |
