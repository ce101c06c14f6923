# AgentLens record and replay, modelled in Dafny

AgentLens is a transparent proxy for MCP servers that speak JSON-RPC 2.0 over stdio. It
sits between an MCP client and a child server. It forwards every byte both ways. It
cuts each direction's stream into newline-delimited frames. It records every frame that
is a JSON object or array in a SQLite session store, and pairs requests with responses to measure
latency. A read-only HTTP API serves the store to a dashboard. The dashboard pairs the
stored messages into tool calls, lays them out as a timeline and replays them step by
step.

This project models that core:

- `Text` covers `String.prototype.trim`, the decimal text of a number, and `join`.
- `Framing` covers the `split("\n")` / `pop()` framer of `processBuffer`. Once a chunk
  has been decoded to text, frames and the carry-over do not depend on how that text
  was chunked. Each chunk is decoded on its own, so this holds only when no multi-byte
  UTF-8 character is cut across two chunks (see "Left out").
- `Rpc` is the shape of a parsed frame: its id, its method and whether it has an error.
  `JSON.parse` itself is a given `Parser` map.
- `Db` (`db.ts`) holds the two tables as a `Store` class over `Tables`. A `Store` is the
  database file across runs: its anonymous constructor is the run that creates the
  file, and `Reopen` is every later run, which keeps the rows already there. Pure functions
  give the effect of each statement. Lemmas show the database invariant is preserved.
  The `ORDER BY` queries are loops that insert rows in order.
- `Proxy` (`proxy.ts`) has the frame classifier `StepLine` with its pending-request map.
  `RecordLines` is the `processBuffer` loop. The `Recorder` class holds the buffers and
  handlers of `startProxy`: each `data` event updates the buffer, the pending map, the
  store, the live feed and the forwarded bytes.
- `ToolCalls` (dashboard `lib/api.ts`) is `pairMessages`: two loops proved against a
  pure specification. The last response with a request's id wins.
- `Replay` (`ReplayController.tsx`) covers the step controls and the `jumpToError`
  search.
- `Timeline` (`TraceTimeline.tsx`) covers `buildGraph`, the node look and the click
  toggle.
- `Api` (proxy `api.ts`) covers the route table and `handleRequest`.
- `Cli` (`index.ts`) covers the `--` argument split and the exit code.

Behaviours of the code worth noting:

- Every frame that parses to a JSON object or array is recorded, even one that is no JSON-RPC
  message (`{}`). Such a frame has `is_error = 0` and no latency.
- A JSON-RPC batch (an array of messages, section 6 of the JSON-RPC 2.0 specification)
  is recorded as one frame with no method, no error and no latency. Its requests never
  enter the pending map and its responses are never matched; the dashboard gives it no
  id either.
- `endSession` overwrites `ended_at` and `status` every time it runs. A session that
  errs and then exits is ended twice.
- Only the child's `exit` publishes `session_end`. The `error` handler ends the session
  without publishing anything.
- `getMessages` orders by `timestamp`, not by message id. With a clock that never goes
  back the two agree (`Db.MonotoneClockKeepsInsertionOrder`). Equal timestamps may come
  back in any order.
- The message insert and the counter update are two statements, not one transaction.
  The model has no crashes, so its effect is the same.

## Model

| member | source | states |
|---|---|---|
| Text.Trim | packages/proxy/src/proxy.ts:59 | `line.trim()`: drops ECMAScript whitespace at both ends; its meaning is stated by the four `Trim` lemmas below |
| Text.IsSpace | packages/proxy/src/proxy.ts:59 | the characters `trim` removes: ECMAScript WhiteSpace and LineTerminator; gives `Text.TrimIsInfix` its meaning |
| Text.TrimIsInfix | packages/proxy/src/proxy.ts:59 | `trim` returns an infix of the line with only whitespace before and after it; a non-empty result neither starts nor ends with whitespace |
| Text.TrimEmptyIffAllSpace | packages/proxy/src/proxy.ts:59-60 | a frame is skipped as blank exactly when it is all ECMAScript whitespace |
| Text.TrimIdempotent | packages/proxy/src/proxy.ts:59 | trimming a trimmed frame changes nothing |
| Text.TrimKeepsAbsentChar | packages/proxy/src/proxy.ts:59 | trimming introduces no character, so a recorded frame holds no line feed |
| Text.Join | packages/proxy/src/proxy.ts:38 | `[command, ...args].join(" ")`: the words with the separator between neighbours |
| Text.DecimalString | packages/dashboard/src/lib/api.ts:68 | the decimal text of a call index is non-empty digits with no leading zero |
| Text.DecimalRoundTrip | packages/dashboard/src/lib/api.ts:68 | reading back the decimal text of `n` gives `n` |
| Text.DecimalInjective | packages/dashboard/src/components/TraceTimeline.tsx:101 | distinct numbers have distinct decimal texts |
| Rpc.HasMethod | packages/proxy/src/proxy.ts:69 | JavaScript truthiness of `msg.method`: present and not empty |
| Rpc.RequestShaped | packages/proxy/src/proxy.ts:69 | `msg.method && msg.id != null`, the shape registered as pending; used by `Proxy.RequestIsRegistered` and `Proxy.OnlyClientRequestsRegister` |
| Rpc.ResponseShaped | packages/proxy/src/proxy.ts:77-81 | `msg.id != null && !msg.method`, the shape treated as a response by the proxy and by `pairMessages`; used by `Proxy.ResponseIsMatched` and `ToolCalls.LastAnswer` |
| Framing.Frames | packages/proxy/src/proxy.ts:54-56 | the complete lines of a buffer hold no line feed, and a buffer without one has none |
| Framing.Remainder | packages/proxy/src/proxy.ts:54-107 | the carry-over `pop()` returns holds no line feed |
| Framing.RemainderIsSuffix | packages/proxy/src/proxy.ts:54-56 | the carry-over is a suffix of the buffer |
| Framing.RemainderFollowsNewline | packages/proxy/src/proxy.ts:54-56 | the carry-over is the whole buffer when it has no line feed, otherwise the text after a line feed |
| Framing.SplitRoundTrip | packages/proxy/src/proxy.ts:54-56 | the frames, each followed by a line feed, then the carry-over, give back the buffer |
| Framing.FramesOfTerminated | packages/proxy/src/proxy.ts:54-56 | splitting undoes joining: complete lines in front of a text come out unchanged |
| Framing.FramesAppend | packages/proxy/src/proxy.ts:113-114 | appending a chunk completes exactly the lines of the carry-over plus the chunk |
| Framing.FeedFrames | packages/proxy/src/proxy.ts:111-114 | the frames handed to the classifier when text chunks arrive one `data` event at a time; related to one pass by `Framing.ChunkingIndependent` |
| Framing.FeedBuffer | packages/proxy/src/proxy.ts:111-114 | the carry-over buffer after those events; related to one pass by `Framing.ChunkingIndependent` |
| Framing.ChunkingIndependent | packages/proxy/src/proxy.ts:111-126 | feeding chunks one `data` event at a time yields the same ordered frames and carry-over as one pass over their concatenation |
| Db.MessagesOf | packages/proxy/src/db.ts:132 | `WHERE session_id = ?`: the rows of one session, in insertion order, each of that session |
| Db.NewMessage | packages/proxy/src/db.ts:94-105 | the row the INSERT writes: truncated payload, `is_error` as 1 or 0, the current time |
| Db.WithSession | packages/proxy/src/db.ts:64-69 | the tables after `createSession`; its consistency is `Db.WithSessionKeepsConsistent` |
| Db.WithEnd | packages/proxy/src/db.ts:71-79 | the tables after `endSession`; its consistency is `Db.WithEndKeepsConsistent` |
| Db.WithMessage | packages/proxy/src/db.ts:81-112 | the tables after `insertMessage`; its consistency is `Db.WithMessageKeepsConsistent` |
| Db.Truncate | packages/proxy/src/db.ts:90-93 | a payload of at most 100000 characters is stored as is; a longer one keeps its first 100000 characters followed by the truncation marker |
| Db.TruncationIsVisible | packages/proxy/src/db.ts:90-93 | for a frame (no line feed) the stored text equals the frame exactly when the frame fits |
| Db.IdsIncrease | packages/proxy/src/db.ts:28 | in a consistent store the AUTOINCREMENT ids strictly increase in insertion order |
| Db.CountersOrdered | packages/proxy/src/db.ts:106-111 | in a consistent store `error_count <= total_messages` for every session |
| Db.Bump | packages/proxy/src/db.ts:107-111 | the counter update adds one to `total_messages`, adds one to `error_count` exactly for an error, and leaves every other column alone |
| Db.WithSessionKeepsConsistent | packages/proxy/src/db.ts:64-69 | creating a session under a fresh key keeps the store consistent |
| Db.WithEndKeepsConsistent | packages/proxy/src/db.ts:71-79 | ending a session keeps the store consistent |
| Db.WithMessageKeepsConsistent | packages/proxy/src/db.ts:81-112 | inserting a message keeps the store consistent: next id, existing session, counters that match the rows |
| Db.InsertSorted | packages/proxy/src/db.ts:114-135 | one step of an ORDER BY adds exactly the new row to the multiset of rows |
| Db.InsertSortedKeepsOrder | packages/proxy/src/db.ts:114-135 | inserting into rows in key order keeps them in key order |
| Db.NewestSessionsFirst | packages/proxy/src/db.ts:114-119 | the listing holds every session once, newest `started_at` first |
| Db.OldestMessagesFirst | packages/proxy/src/db.ts:128-135 | the listing is a permutation of the session's rows, in ascending `timestamp` |
| Db.MonotoneClockKeepsInsertionOrder | packages/proxy/src/db.ts:128-135 | with a clock that never goes back, a session's rows in insertion order are already in `timestamp` order |
| Db.Store.constructor | packages/proxy/src/db.ts:11-39 | the run that creates the database file: both tables empty, consistent |
| Db.Store.Reopen | packages/proxy/src/db.ts:11-39 | a later run opens the existing file: the store is exactly the saved, consistent tables |
| Db.Store.CreateSession | packages/proxy/src/db.ts:64-69 | inserts an 'active' row with no end time and zero counters; a duplicate key is refused and changes nothing |
| Db.Store.EndSession | packages/proxy/src/db.ts:71-79 | sets `ended_at` and `status` of that session only; an unknown id changes nothing |
| Db.Store.InsertMessage | packages/proxy/src/db.ts:81-112 | appends the truncated row under the next id and bumps its session's counters; an unknown session is refused and changes nothing |
| Db.Store.GetSessions | packages/proxy/src/db.ts:114-119 | returns every session once, newest first |
| Db.Store.GetSession | packages/proxy/src/db.ts:121-126 | returns the row with that key, or nothing when there is none |
| Db.Store.GetMessages | packages/proxy/src/db.ts:128-135 | returns that session's rows, oldest first |
| Proxy.Preview | packages/proxy/src/proxy.ts:103 | a live message carries the frame itself up to 2000 characters, else its first 2000 characters and "..." |
| Proxy.StepLine | packages/proxy/src/proxy.ts:59-94 | a frame is recorded exactly when it is non-blank and parses to a JSON object or array; skipped frames leave the pending map alone; only a server response with an error is an error; a latency is only measured against a pending request, which is then consumed and lends its method; the branch lemmas below cover every case |
| Proxy.PendingChangesOnlyAtFrameId | packages/proxy/src/proxy.ts:69-92 | the pending map changes only at the id of a recorded frame |
| Proxy.RequestIsRegistered | packages/proxy/src/proxy.ts:69-94 | a client request with a method and an id is registered under its id, replacing an earlier entry, and recorded with its own method, no error and no latency |
| Proxy.ResponseIsMatched | packages/proxy/src/proxy.ts:77-94 | a server response with a pending id consumes the entry, takes the request's method and the elapsed time, and is an error exactly when it has an `error` |
| Proxy.UnmatchedResponse | packages/proxy/src/proxy.ts:77-94 | a response with no pending request keeps its own method and has no latency |
| Proxy.OtherFramesPassThrough | packages/proxy/src/proxy.ts:65-94 | a frame that is neither a client request nor a server response (notification, server request, client response, non-RPC object) keeps its own method, no error, no latency, and leaves the pending map alone |
| Proxy.OnlyClientRequestsRegister | packages/proxy/src/proxy.ts:69-75 | an id enters the pending map only through a client-to-server request with that id: with `Proxy.RequestIsRegistered`, the map gains an entry if and only if the frame is a client request |
| Proxy.RowOf | packages/proxy/src/db.ts:94-105 | the row inserted for one record: `Db.NewMessage` with the record's fields; stated by `Proxy.Rows` |
| Proxy.RequestThenResponse | packages/proxy/src/proxy.ts:69-92 | a request followed by its response yields the request's method and the time between the two, and leaves the map as before less that id |
| Proxy.RecordLines | packages/proxy/src/proxy.ts:58-105 | the loop records at most one row per frame, all in the buffer's direction |
| Proxy.RecordLinesAppend | packages/proxy/src/proxy.ts:58-105 | processing two batches of frames one after the other is processing their concatenation |
| Proxy.SkippedLinesLeaveNoTrace | packages/proxy/src/proxy.ts:59-63 | blank frames and frames that are not a JSON object or array record nothing and leave the pending map alone |
| Proxy.Rows | packages/proxy/src/proxy.ts:94 | one row per record, numbered on from the first id, in that session, with the truncated payload |
| Proxy.Tally | packages/proxy/src/proxy.ts:94 | after a batch `total_messages` grew by the batch size and `error_count` by the number of erroring records, other columns unchanged |
| Proxy.ErrorsIn | packages/proxy/src/db.ts:106-111 | the number of erroring records, at most the batch size, and 0 exactly when none errs |
| Proxy.Recorded | packages/proxy/src/proxy.ts:94 | the tables after `insertMessage` of each record in turn; pinned down by `Proxy.RecordedAppendsRows`, `Proxy.RecordedTallies` and `Proxy.RecordedKeepsConsistent` |
| Proxy.RecordedKeepsConsistent | packages/proxy/src/proxy.ts:94 | logging any batch keeps the database consistent |
| Proxy.EventOf | packages/proxy/src/proxy.ts:96-104 | the live message of one record, with the frame's preview |
| Proxy.Events | packages/proxy/src/proxy.ts:96-104 | one live message per record, in order, with its direction, method, error flag, latency and preview |
| Proxy.RecordedAppendsRows | packages/proxy/src/proxy.ts:94 | logging a batch for an existing session appends exactly its rows, numbered on from the last id |
| Proxy.RecordedTallies | packages/proxy/src/proxy.ts:94 | logging a batch bumps that session's counters once per record and no other session's |
| Proxy.FeedStep | packages/proxy/src/proxy.ts:113-114 | a buffer that is the carry-over of the input so far, plus a chunk, processes the next frames of the whole input |
| Proxy.ChunkingDoesNotMatter | packages/proxy/src/proxy.ts:111-114 | from an empty buffer, the frames processed over any chunking are the frames of the whole stream |
| Proxy.Recorder.constructor | packages/proxy/src/proxy.ts:28-48 | creates the session with the command line joined by spaces; empty buffers, empty pending map, open child stdin; the recorder invariant (consistent database, session present, no complete frame buffered) holds |
| Proxy.Recorder.LogLine | packages/proxy/src/proxy.ts:58-104 | one frame updates the pending map as `StepLine` says, inserts its row and broadcasts its live message |
| Proxy.Recorder.ProcessLines | packages/proxy/src/proxy.ts:58-105 | the frames update the pending map, the store and the live feed as `RecordLines` says |
| Proxy.Recorder.ProcessBuffer | packages/proxy/src/proxy.ts:50-108 | processes the buffer's complete frames and returns its carry-over |
| Proxy.Recorder.OnClientData | packages/proxy/src/proxy.ts:111-120 | a chunk from the host is framed with the client buffer and logged client to server, then forwarded to the child while its stdin is open; the database stays consistent |
| Proxy.Recorder.OnServerData | packages/proxy/src/proxy.ts:123-130 | a chunk from the child is framed with the server buffer and logged server to client, then forwarded to the host; the database stays consistent |
| Proxy.Recorder.OnClientEnd | packages/proxy/src/proxy.ts:132-136 | the end of the host's input closes the child's stdin |
| Proxy.Recorder.OnExit | packages/proxy/src/proxy.ts:138-141 | the child's exit ends the session as completed for code 0 and as error otherwise, and publishes `session_end` |
| Proxy.Recorder.OnError | packages/proxy/src/proxy.ts:143-146 | a spawn error ends the session as error and publishes nothing |
| ToolCalls.Answers | packages/dashboard/src/lib/api.ts:41-50 | a server-to-client row whose payload parses, has that id and no truthy method: the rows `responseByRpcId` stores; used by `ToolCalls.LastAnswer` |
| ToolCalls.LastAnswer | packages/dashboard/src/lib/api.ts:41-52 | finds the last server-to-client row answering an id, with no later answer; none means no row answers it |
| ToolCalls.AnswerTo | packages/dashboard/src/lib/api.ts:41-52 | the row `responseByRpcId` holds for an id: the row at `LastAnswer`, if any |
| ToolCalls.RequestId | packages/dashboard/src/lib/api.ts:58-64 | `parsed.id ?? null` of a request row; a payload that does not parse has no id |
| ToolCalls.CallOf | packages/dashboard/src/lib/api.ts:66-75 | the call of the i-th request row; its meaning is stated by `ToolCalls.CallResponseIsLastAnswer`, `ToolCalls.SharedIdSharesResponse` and `ToolCalls.ErrorNeedsResponse` |
| ToolCalls.Requests | packages/dashboard/src/lib/api.ts:56-57 | the client-to-server rows, no more rows than the log |
| ToolCalls.IndexResponses | packages/dashboard/src/lib/api.ts:38-52 | the map gives, for every id, the last response that answers it |
| ToolCalls.CallFor | packages/dashboard/src/lib/api.ts:58-75 | the call built for one request row is its specification `CallOf` |
| ToolCalls.PairMessages | packages/dashboard/src/lib/api.ts:36-80 | exactly one call per client-to-server row, in order, the k-th being `CallOf` that row with index k |
| ToolCalls.RequestsAppend | packages/dashboard/src/lib/api.ts:56-57 | the calls of a log are those of its first part followed by those of the rest |
| ToolCalls.RequestsOfOne | packages/dashboard/src/lib/api.ts:57 | a single row yields a call exactly when it goes client to server |
| ToolCalls.CallIdsDistinct | packages/dashboard/src/lib/api.ts:68 | call ids `call-i` are distinct for distinct indexes |
| ToolCalls.CallResponseIsLastAnswer | packages/dashboard/src/lib/api.ts:41-66 | a call has a response exactly when its request has an id that some row answers; the response is such a row with no later answer |
| ToolCalls.SharedIdSharesResponse | packages/dashboard/src/lib/api.ts:45-66 | requests with the same id get the same response and error flag |
| ToolCalls.ErrorNeedsResponse | packages/dashboard/src/lib/api.ts:69-73 | a call errs exactly when its response has `is_error` 1; a latency comes from the response; the method falls back to "unknown" |
| Replay.Current | packages/dashboard/src/components/ReplayController.tsx:15 | `step ?? total - 1`; bounded by `Replay.CurrentInRange` |
| Replay.Prev | packages/dashboard/src/components/ReplayController.tsx:17-20 | the step `prev` hands on; stated by `Replay.PrevEnds`, `Replay.StepsStayInRange` and `Replay.PrevUndoesNext` |
| Replay.Next | packages/dashboard/src/components/ReplayController.tsx:22-30 | the step `next` hands on; stated by `Replay.NextEnds`, `Replay.StepsStayInRange` and `Replay.NextUndoesPrev` |
| Replay.ToggleReplay | packages/dashboard/src/components/ReplayController.tsx:43-45 | live mode becomes step 0 and replay becomes live mode; stated by `Replay.ToggleTwice` |
| Replay.CurrentInRange | packages/dashboard/src/components/ReplayController.tsx:15 | the highlighted call is a call of the timeline, the newest in live mode |
| Replay.StepsStayInRange | packages/dashboard/src/components/ReplayController.tsx:17-30 | prev and next keep the step on a call or in live mode |
| Replay.EmptyTimelineIgnoresArrows | packages/dashboard/src/components/ReplayController.tsx:17-30 | with no calls both arrows leave the step alone |
| Replay.PrevEnds | packages/dashboard/src/components/ReplayController.tsx:17-20 | prev from live mode lands on the newest call and stays on the first |
| Replay.NextEnds | packages/dashboard/src/components/ReplayController.tsx:22-30 | next from the newest call returns to live mode and from live mode starts at the first call |
| Replay.PrevUndoesNext | packages/dashboard/src/components/ReplayController.tsx:17-30 | prev undoes next on every call |
| Replay.NextUndoesPrev | packages/dashboard/src/components/ReplayController.tsx:17-30 | next undoes prev everywhere but on the first call |
| Replay.ToggleTwice | packages/dashboard/src/components/ReplayController.tsx:43-45 | toggling leaves replay for live mode or starts at the first call; twice from live mode is live mode |
| Replay.FirstError | packages/dashboard/src/components/ReplayController.tsx:35-40 | the first erroring call in a range, or none when no call in it errs |
| Replay.JumpToError | packages/dashboard/src/components/ReplayController.tsx:32-41 | picks the first erroring call after the step, else the first before it, and nothing for an empty timeline |
| Replay.JumpToErrorPicksOtherError | packages/dashboard/src/components/ReplayController.tsx:32-41 | the pick errs and is not the current step; nothing is picked exactly when no other call errs |
| Timeline.BuildGraph | packages/dashboard/src/components/TraceTimeline.tsx:72-114 | one node per call and one edge into every call but the first, in call order |
| Timeline.AddCall | packages/dashboard/src/components/TraceTimeline.tsx:79-110 | one loop turn appends the call's node and, past the first call, the edge into it |
| Timeline.Dimmed | packages/dashboard/src/components/TraceTimeline.tsx:81 | a call lies past the replay step; given meaning by `Timeline.ReplayDimsTheFuture` and `Timeline.EdgeLook` |
| Timeline.NodeAt | packages/dashboard/src/components/TraceTimeline.tsx:80-97 | the node of call i; stated by `Timeline.NodesInARow`, `Timeline.ReplayDimsTheFuture` and `Timeline.PendingAndLatency` |
| Timeline.EdgeInto | packages/dashboard/src/components/TraceTimeline.tsx:99-110 | the edge into call i; stated by `Timeline.EdgesChainNodes` and `Timeline.EdgeLook` |
| Timeline.NodesInARow | packages/dashboard/src/components/TraceTimeline.tsx:67-87 | node i sits at x = 260 * i, y = 30, with its call's id and index |
| Timeline.EdgesChainNodes | packages/dashboard/src/components/TraceTimeline.tsx:99-103 | the edge into node i leaves node i-1 and enters node i; edge ids are distinct |
| Timeline.ReplayDimsTheFuture | packages/dashboard/src/components/TraceTimeline.tsx:81-82 | exactly the calls after the step are dimmed and exactly the step is selected; nothing in live mode |
| Timeline.PendingAndLatency | packages/dashboard/src/components/TraceTimeline.tsx:90-92 | a node waits exactly when its call has no response and shows no latency exactly when the call has none |
| Timeline.EdgeLook | packages/dashboard/src/components/TraceTimeline.tsx:104-106 | an edge animates exactly into a waiting undimmed call; grey when dimmed, else red into an error, else blue |
| Timeline.StatusOf | packages/dashboard/src/components/TraceTimeline.tsx:30-39 | the precedence of the node's look: error, then pending, then success |
| Timeline.Border | packages/dashboard/src/components/TraceTimeline.tsx:30-34 | the border class of a node; stated by `Timeline.LookFollowsStatus` |
| Timeline.Background | packages/dashboard/src/components/TraceTimeline.tsx:35-39 | the background class of a node; stated by `Timeline.LookFollowsStatus` |
| Timeline.Pulses | packages/dashboard/src/components/TraceTimeline.tsx:41 | the `node-error-pulse` class: an error that is not dimmed; stated by `Timeline.LookFollowsStatus` |
| Timeline.Badges | packages/dashboard/src/components/TraceTimeline.tsx:53-55 | the status badges of a node; stated by `Timeline.LookFollowsStatus` and `Timeline.OneBadgeForPairedCalls` |
| Timeline.LookFollowsStatus | packages/dashboard/src/components/TraceTimeline.tsx:30-55 | border, background and badges follow the status, error first, then waiting, then success; only an undimmed error pulses |
| Timeline.OneBadgeForPairedCalls | packages/dashboard/src/components/TraceTimeline.tsx:53-55 | on paired calls every node shows exactly one status badge |
| Timeline.Click | packages/dashboard/src/components/TraceTimeline.tsx:136-141 | the selection after a node click; stated by `Timeline.ClickToggles` |
| Timeline.ClickToggles | packages/dashboard/src/components/TraceTimeline.tsx:136-141 | a click clears the selection exactly when that node was selected, else selects it |
| Api.SessionPathId | packages/proxy/src/api.ts:30 | a captured id is a non-empty segment without '/' that rebuilds the path |
| Api.MessagesPathId | packages/proxy/src/api.ts:42 | a captured id is a segment that rebuilds the messages path |
| Api.SessionPathMatches | packages/proxy/src/api.ts:30 | the session path captures an id exactly when the path is the prefix plus that segment |
| Api.MessagesPathMatches | packages/proxy/src/api.ts:42 | the messages path captures an id exactly when the path is the prefix, that segment and "/messages" |
| Api.RouteOf | packages/proxy/src/api.ts:14-53 | the branch `handleRequest` takes, in its order; stated both ways by `Api.RouteTable` |
| Api.PathsDisjoint | packages/proxy/src/api.ts:24-51 | no path is both a session path and a messages path; the list path is neither |
| Api.RouteTable | packages/proxy/src/api.ts:14-53 | OPTIONS is a preflight on any path; each GET route is taken by exactly its paths; other methods fall through to 404 |
| Api.HandleRequest | packages/proxy/src/api.ts:4-54 | every reply has the JSON and CORS headers; 204 for OPTIONS; 200 with the listing, the session or its messages; 404 "Session not found" for an unknown id; 404 "Not found" otherwise |
| Cli.IndexOf | packages/proxy/src/index.ts:33 | the first position of the separator, or -1 exactly when there is none |
| Cli.RawArgs | packages/proxy/src/index.ts:32 | `process.argv.slice(2)` |
| Cli.ChildArgs | packages/proxy/src/index.ts:33-40 | the arguments after the first "--", or all of them; stated by `Cli.ChildArgsSplit` and `Cli.FirstSeparatorWins` |
| Cli.StartupOf | packages/proxy/src/index.ts:42-48 | usage or launch; stated by `Cli.StartupSplitsChildArgs` |
| Cli.ChildArgsSplit | packages/proxy/src/index.ts:32-40 | with a "--" the arguments are a "--"-free part, "--", then the child's arguments; without one the child gets them all |
| Cli.FirstSeparatorWins | packages/proxy/src/index.ts:33-37 | only the first "--" splits: later "--" tokens reach the child unchanged |
| Cli.StartupSplitsChildArgs | packages/proxy/src/index.ts:42-48 | the usage exits with 1 exactly when there are no child arguments; otherwise command and args are the child arguments |
| Cli.ExitCode | packages/proxy/src/index.ts:70 | the proxy exits with the child's code when it has one, with 1 when a signal killed it, and with 0 exactly when the child exited with 0 |

## Left out

- `JSON.parse` is not modelled. A `Parser` map says which texts `JSON.parse` turns into a non-null object or array and what their `id`, `method` and `error` are; `Rpc.Parse` only reads that map and is the boundary of the model, not a model of `JSON.parse`. Ids that are neither strings nor numbers (booleans, objects) are not modelled, nor are numeric ids with a fractional part: `RpcId.Num` holds an integer.
- A `method` member that is not a string is not modelled: `Parsed.methodName` is a string or absent. In the source such a value goes straight to the `method` column (db.ts:97-105). A number is stored as text. A boolean, object or array makes the statement's parameter binding throw inside the `data` handler, where nothing catches it.
- `Framing.ChunkingIndependent`, `Proxy.ChunkingDoesNotMatter`: are about chunks already decoded to text. The source decodes each `data` chunk on its own with `data.toString()` (proxy.ts:112, proxy.ts:124). A multi-byte UTF-8 character cut across two chunks is decoded as replacement characters, so the recorded frames then depend on where the chunks were cut. The forwarded bytes do not, since the raw chunk is written.
- `Date.now()` is the `now` parameter of each event. One `data` event uses one instant for the pending timestamp, the insert and the broadcast, where the source reads the clock each time.
- JavaScript string lengths count UTF-16 code units. The model counts characters, so the 100000 and 2000 limits are in characters.
- `latency_ms` is a REAL column. The model keeps integers, since it is a difference of `Date.now()` values.
- `formatDuration` is floating-point formatting, so `Timeline.BuildGraph` takes it as a parameter.
- `Timeline.PendingAndLatency`: assumes that a formatted duration is never empty.
- I/O is left out: spawning the child, the stdio streams, the WebSocket server (`broadcast` becomes the `outbox` list), the HTTP server and `new URL`. The API is handed the request's path. `handleRequest` writes nothing, so `Api.HandleRequest` returns the reply and modifies nothing.
- `pendingRequests` is module-level in the source and a `Recorder` field here. `startProxy` runs once per process, so the two agree.
- Forwarding of SIGTERM and SIGINT is left out.
- `Proxy.Recorder.OnClientData`: forwards while the host's input is open. In the source `child.stdin` is also destroyed when the child exits or fails to spawn, which the model does not track.
- `generateSessionId` (random) is left out: the session id is a parameter.
- The start-up messages on stderr and the 200 ms delay before `process.exit` are left out.
- `Replay.JumpToError`: requires the step to lie in -1..|calls|. Beyond that the source reads past the end of `calls`.
- The React rendering is left out: class strings other than border, background and pulse, `#index` labels, keyboard bindings and `useEffect`.
- The SQLite journal and synchronous pragmas and the indexes are left out. They change neither contents nor results.
- `Db.Store.CreateSession`, `Db.Store.EndSession`, `Db.Store.InsertMessage`: do not ensure `Valid()`. Consistency after each statement is proved on the pure `Tables` functions (`Db.WithSessionKeepsConsistent`, `Db.WithEndKeepsConsistent`, `Db.WithMessageKeepsConsistent`, `Proxy.RecordedKeepsConsistent`), and every `Proxy.Recorder` handler keeps `Db.Store.Valid` as part of the recorder's invariant.
- `Proxy.Recorder.constructor`: requires a fresh session id. For a duplicate id `createSession` throws, and the source does not catch it.
