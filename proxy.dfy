/** The recording proxy of packages/proxy/src/proxy.ts. Bytes read from the host's stdin
    are forwarded to the child server and bytes from the child's stdout to the host; on
    the way, each complete newline-delimited frame is trimmed, parsed, matched against the
    pending requests and logged to the store and the live feed. `Date.now()` becomes the
    `now` parameter of each event handler; `JSON.parse` becomes the `parse` field. */
module Proxy {
  import opened Wrappers
  import opened Text
  import opened Framing
  import opened Rpc
  import opened Db
  import opened Seqs

  /** An entry of `pendingRequests`: the request's method and when it was seen. */
  datatype Pending = Pending(methodName: string, sentAt: int)

  type PendingMap = map<RpcId, Pending>

  /** What one frame contributes to the store: the arguments of `insertMessage`. */
  datatype Record = Record(
    direction: Direction,
    rawJson: string,
    methodName: Option<string>,
    isError: bool,
    latencyMs: Option<int>)

  /** A message pushed to live-feed subscribers. */
  datatype Event =
    | MessageEvent(sessionId: string, direction: Direction, timestamp: int,
                   methodName: Option<string>, isError: bool, latencyMs: Option<int>,
                   rawJson: string)
    | SessionEnd(sessionId: string, code: Option<int>)

  const PreviewLimit: nat := 2000

  /** The `raw_json` of a live message: the frame cut to 2000 characters plus "...". */
  function Preview(raw: string): (p: string)
    ensures |raw| <= PreviewLimit ==> p == raw
    ensures |raw| > PreviewLimit ==>
      |p| == PreviewLimit + 3 && p[..PreviewLimit] == raw[..PreviewLimit] && p[PreviewLimit..] == "..."
  {
    if |raw| > PreviewLimit then raw[..PreviewLimit] + "..." else raw
  }

  /** One iteration of the `processBuffer` loop over one frame: the new pending map and
      the record to store, if any. Blank frames and frames that are not a JSON object or
      array are skipped; every JSON object or array is recorded, whether or not it is a
      single JSON-RPC message. */
  function StepLine(pending: PendingMap, dir: Direction, line: string,
                    parse: Parser, now: int): (out: (PendingMap, Option<Record>))
    ensures out.1.Some? <==> Trim(line) != [] && Parse(parse, Trim(line)).Some?
    ensures out.1.None? ==> out.0 == pending
    ensures out.1.Some? ==> out.1.value.direction == dir && out.1.value.rawJson == Trim(line)
    // only a server response with a truthy `error` is an error
    ensures out.1.Some? && out.1.value.isError ==>
      dir == ServerToClient && ResponseShaped(Parse(parse, Trim(line)).value) && Parse(parse, Trim(line)).value.hasError
    // a latency is only ever measured against a pending request, which is then consumed
    ensures out.1.Some? && out.1.value.latencyMs.Some? ==>
      ResponseShaped(Parse(parse, Trim(line)).value) &&
      var id := Parse(parse, Trim(line)).value.id.value;
      id in pending && id !in out.0 &&
      out.1.value.latencyMs == Some(now - pending[id].sentAt) &&
      out.1.value.methodName == Some(pending[id].methodName)
  {
    var trimmed := Trim(line);
    if trimmed == [] then (pending, None)
    else match Parse(parse, trimmed)
      case None => (pending, None)
      case Some(msg) =>
        if dir == ClientToServer && RequestShaped(msg) then
          (pending[msg.id.value := Pending(msg.methodName.value, now)],
           Some(Record(dir, trimmed, msg.methodName, false, None)))
        else if dir == ServerToClient && ResponseShaped(msg) then
          if msg.id.value in pending then
            var p := pending[msg.id.value];
            (pending - {msg.id.value},
             Some(Record(dir, trimmed, Some(p.methodName), msg.hasError, Some(now - p.sentAt))))
          else
            (pending, Some(Record(dir, trimmed, msg.methodName, msg.hasError, None)))
        else
          (pending, Some(Record(dir, trimmed, msg.methodName, false, None)))
  }

  /** The pending map changes at the frame's own id only, and only for a recorded frame. */
  lemma PendingChangesOnlyAtFrameId(pending: PendingMap, dir: Direction, line: string,
                                    parse: Parser, now: int, k: RpcId)
    requires var out := StepLine(pending, dir, line, parse, now);
      (k in pending) != (k in out.0) || (k in pending && pending[k] != out.0[k])
    ensures StepLine(pending, dir, line, parse, now).1.Some?
    ensures Parse(parse, Trim(line)).value.id == Some(k)
  {
  }

  /** A request from the client is registered under its id, replacing any earlier request
      with the same id, and recorded under its own method. */
  lemma RequestIsRegistered(pending: PendingMap, line: string, parse: Parser, now: int)
    requires Trim(line) != [] && Parse(parse, Trim(line)).Some?
    requires RequestShaped(Parse(parse, Trim(line)).value)
    ensures var msg := Parse(parse, Trim(line)).value;
      StepLine(pending, ClientToServer, line, parse, now) ==
        (pending[msg.id.value := Pending(msg.methodName.value, now)],
         Some(Record(ClientToServer, Trim(line), msg.methodName, false, None)))
  {
  }

  /** A server response whose id is pending takes the request's method and the elapsed
      time, and consumes the entry; `isError` follows the response's `error` member. */
  lemma ResponseIsMatched(pending: PendingMap, line: string, parse: Parser, now: int)
    requires Trim(line) != [] && Parse(parse, Trim(line)).Some?
    requires ResponseShaped(Parse(parse, Trim(line)).value)
    requires Parse(parse, Trim(line)).value.id.value in pending
    ensures var msg := Parse(parse, Trim(line)).value;
      var p := pending[msg.id.value];
      StepLine(pending, ServerToClient, line, parse, now) ==
        (pending - {msg.id.value},
         Some(Record(ServerToClient, Trim(line), Some(p.methodName), msg.hasError, Some(now - p.sentAt))))
  {
  }

  /** A response nobody asked for keeps its own method (absent or empty) and no latency. */
  lemma UnmatchedResponse(pending: PendingMap, line: string, parse: Parser, now: int)
    requires Trim(line) != [] && Parse(parse, Trim(line)).Some?
    requires ResponseShaped(Parse(parse, Trim(line)).value)
    requires Parse(parse, Trim(line)).value.id.value !in pending
    ensures var msg := Parse(parse, Trim(line)).value;
      StepLine(pending, ServerToClient, line, parse, now) ==
        (pending, Some(Record(ServerToClient, Trim(line), msg.methodName, msg.hasError, None)))
  {
  }

  /** Every other parsed frame — a notification, a request from the server, a response from
      the client, an object or array that is no single JSON-RPC message — is recorded under its own
      method, as no error and with no latency, and leaves the pending map alone. */
  lemma OtherFramesPassThrough(pending: PendingMap, dir: Direction, line: string, parse: Parser, now: int)
    requires Trim(line) != [] && Parse(parse, Trim(line)).Some?
    requires var msg := Parse(parse, Trim(line)).value;
      !(dir == ClientToServer && RequestShaped(msg)) && !(dir == ServerToClient && ResponseShaped(msg))
    ensures StepLine(pending, dir, line, parse, now) ==
      (pending, Some(Record(dir, Trim(line), Parse(parse, Trim(line)).value.methodName, false, None)))
  {
  }

  /** A new entry appears in the pending map only for a client request: the converse of
      `RequestIsRegistered`. */
  lemma OnlyClientRequestsRegister(pending: PendingMap, dir: Direction, line: string, parse: Parser,
                                   now: int, k: RpcId)
    requires k !in pending && k in StepLine(pending, dir, line, parse, now).0
    ensures Trim(line) != [] && Parse(parse, Trim(line)).Some?
    ensures dir == ClientToServer && RequestShaped(Parse(parse, Trim(line)).value)
    ensures Parse(parse, Trim(line)).value.id == Some(k)
  {
  }

  /** A request followed by its response, with no other frame in between, yields the
      request's method and the latency between the two frames, and leaves the pending map
      as it was before the request (less any stale entry under the same id). */
  lemma {:induction false} RequestThenResponse(
    pending: PendingMap, request: string, response: string,
    parse: Parser, sentAt: int, receivedAt: int)
    requires Trim(request) != [] && Parse(parse, Trim(request)).Some?
    requires Trim(response) != [] && Parse(parse, Trim(response)).Some?
    requires RequestShaped(Parse(parse, Trim(request)).value)
    requires ResponseShaped(Parse(parse, Trim(response)).value)
    requires Parse(parse, Trim(response)).value.id == Parse(parse, Trim(request)).value.id
    ensures var first := StepLine(pending, ClientToServer, request, parse, sentAt);
      var second := StepLine(first.0, ServerToClient, response, parse, receivedAt);
      var id := Parse(parse, Trim(request)).value.id.value;
      && second.1 == Some(Record(ServerToClient, Trim(response), Parse(parse, Trim(request)).value.methodName,
                                 Parse(parse, Trim(response)).value.hasError, Some(receivedAt - sentAt)))
      && second.0 == pending - {id}
  {
    var id := Parse(parse, Trim(request)).value.id.value;
    RequestIsRegistered(pending, request, parse, sentAt);
    var first := StepLine(pending, ClientToServer, request, parse, sentAt);
    assert id in first.0;
    ResponseIsMatched(first.0, response, parse, receivedAt);
    assert first.0 - {id} == pending - {id};
  }

  /** The state of one `processBuffer` run: the pending map and the records so far. */
  datatype Outcome = Outcome(pending: PendingMap, records: seq<Record>)

  /** The `processBuffer` loop over a list of frames, all seen at time `now`. */
  function RecordLines(pending: PendingMap, dir: Direction, lines: seq<string>,
                       parse: Parser, now: int): (o: Outcome)
    ensures |o.records| <= |lines|
    ensures forall k :: 0 <= k < |o.records| ==> o.records[k].direction == dir
  {
    if lines == [] then Outcome(pending, [])
    else
      var o := RecordLines(pending, dir, lines[..|lines| - 1], parse, now);
      var step := StepLine(o.pending, dir, lines[|lines| - 1], parse, now);
      Outcome(step.0, o.records + if step.1.Some? then [step.1.value] else [])
  }

  /** Unfolding `RecordLines` at its last frame. */
  lemma RecordLinesSnoc(pending: PendingMap, dir: Direction, lines: seq<string>, line: string,
                        parse: Parser, now: int)
    ensures var o := RecordLines(pending, dir, lines, parse, now);
      var step := StepLine(o.pending, dir, line, parse, now);
      RecordLines(pending, dir, lines + [line], parse, now) ==
        Outcome(step.0, o.records + if step.1.Some? then [step.1.value] else [])
  {
    FrontOfSnoc(lines, line);
  }

  /** Processing two batches of frames one after the other is processing their
      concatenation. */
  lemma {:induction false} RecordLinesAppend(
    pending: PendingMap, dir: Direction, xs: seq<string>, ys: seq<string>,
    parse: Parser, now: int)
    ensures var first := RecordLines(pending, dir, xs, parse, now);
      var second := RecordLines(first.pending, dir, ys, parse, now);
      RecordLines(pending, dir, xs + ys, parse, now) == Outcome(second.pending, first.records + second.records)
  {
    if ys == [] {
      AppendEmpty(xs);
    } else {
      var init, last := ys[..|ys| - 1], ys[|ys| - 1];
      RecordLinesAppend(pending, dir, xs, init, parse, now);
      AppendSnoc(xs, ys);
      RecordLinesSnoc(pending, dir, xs + init, last, parse, now);
      var first := RecordLines(pending, dir, xs, parse, now);
      RecordLinesSnoc(first.pending, dir, init, last, parse, now);
      var mid := RecordLines(first.pending, dir, init, parse, now);
      var step := StepLine(mid.pending, dir, last, parse, now);
      var extra := if step.1.Some? then [step.1.value] else [];
      AppendAssoc(first.records, mid.records, extra);
    }
  }

  /** Frames without content, or whose text is not a JSON object or array, leave no trace. */
  lemma {:induction false} SkippedLinesLeaveNoTrace(
    pending: PendingMap, dir: Direction, lines: seq<string>,
    parse: Parser, now: int)
    requires forall k :: 0 <= k < |lines| ==> Trim(lines[k]) == [] || Parse(parse, Trim(lines[k])).None?
    ensures RecordLines(pending, dir, lines, parse, now) == Outcome(pending, [])
  {
    if lines != [] {
      SkippedLinesLeaveNoTrace(pending, dir, lines[..|lines| - 1], parse, now);
    }
  }

  /** The row `insertMessage` appends for a record under id `id`. */
  function RowOf(id: nat, sessionId: string, r: Record, now: int): MessageRow {
    NewMessage(id, sessionId, r.direction, r.rawJson, r.methodName, r.isError, r.latencyMs, now)
  }

  /** The rows appended for `records`, numbered from `firstId`. */
  function Rows(firstId: nat, sessionId: string, records: seq<Record>, now: int): (rows: seq<MessageRow>)
    ensures |rows| == |records|
    ensures forall k :: 0 <= k < |rows| ==>
      rows[k].id == firstId + k && rows[k].sessionId == sessionId &&
      rows[k].rawJson == Truncate(records[k].rawJson)
  {
    if records == [] then []
    else Rows(firstId, sessionId, records[..|records| - 1], now)
         + [RowOf(firstId + |records| - 1, sessionId, records[|records| - 1], now)]
  }

  /** How many of `records` are errors. */
  function ErrorsIn(records: seq<Record>): (n: nat)
    ensures n <= |records|
    ensures n == 0 <==> forall k :: 0 <= k < |records| ==> !records[k].isError
  {
    if records == [] then 0
    else ErrorsIn(records[..|records| - 1]) + if records[|records| - 1].isError then 1 else 0
  }

  /** A session row after its counters have been bumped once per record. */
  function Tally(row: SessionRow, records: seq<Record>): (r: SessionRow)
    ensures r.totalMessages == row.totalMessages + |records|
    ensures r.errorCount == row.errorCount + ErrorsIn(records)
    ensures r == row.(totalMessages := r.totalMessages, errorCount := r.errorCount)
  {
    if records == [] then row
    else Bump(Tally(row, records[..|records| - 1]), records[|records| - 1].isError)
  }

  /** The tables after `insertMessage` of each record in turn. */
  function Recorded(t: Tables, sessionId: string, records: seq<Record>, now: int): Tables
  {
    if records == [] then t
    else
      var r := records[|records| - 1];
      WithMessage(Recorded(t, sessionId, records[..|records| - 1], now),
                  sessionId, r.direction, r.rawJson, r.methodName, r.isError, r.latencyMs, now)
  }

  /** The live message broadcast for a record. */
  function EventOf(sessionId: string, r: Record, now: int): Event {
    MessageEvent(sessionId, r.direction, now, r.methodName, r.isError, r.latencyMs, Preview(r.rawJson))
  }

  /** The live-feed messages broadcast for `records`. */
  function Events(sessionId: string, records: seq<Record>, now: int): (es: seq<Event>)
    ensures |es| == |records|
    ensures forall k :: 0 <= k < |es| ==>
      es[k] == MessageEvent(sessionId, records[k].direction, now, records[k].methodName,
                            records[k].isError, records[k].latencyMs, Preview(records[k].rawJson))
  {
    if records == [] then []
    else Events(sessionId, records[..|records| - 1], now) + [EventOf(sessionId, records[|records| - 1], now)]
  }

  lemma RecordedSnoc(t: Tables, sessionId: string, records: seq<Record>, r: Record, now: int)
    ensures Recorded(t, sessionId, records + [r], now) ==
      WithMessage(Recorded(t, sessionId, records, now), sessionId, r.direction, r.rawJson,
                  r.methodName, r.isError, r.latencyMs, now)
  {
    FrontOfSnoc(records, r);
  }

  lemma EventsSnoc(sessionId: string, records: seq<Record>, r: Record, now: int)
    ensures Events(sessionId, records + [r], now) == Events(sessionId, records, now) + [EventOf(sessionId, r, now)]
  {
    FrontOfSnoc(records, r);
  }

  /** Logging records for a session that exists appends one row per record, numbered on
      from the last id, in order; the session stays. */
  lemma {:induction false} RecordedAppendsRows(t: Tables, sessionId: string, records: seq<Record>, now: int)
    requires sessionId in t.sessions
    ensures sessionId in Recorded(t, sessionId, records, now).sessions
    ensures Recorded(t, sessionId, records, now).messages == t.messages + Rows(|t.messages| + 1, sessionId, records, now)
  {
    if records == [] {
      AppendEmpty(t.messages);
    } else {
      var init, last := records[..|records| - 1], records[|records| - 1];
      var first := |t.messages| + 1;
      RecordedAppendsRows(t, sessionId, init, now);
      RecordedLast(t, sessionId, records, now);
      RowsLast(first, sessionId, records, now);
      AppendAssoc(t.messages, Rows(first, sessionId, init, now), [RowOf(first + |init|, sessionId, last, now)]);
    }
  }

  /** Logging records for a session that exists bumps that session's counters once per
      record, and changes no other session. */
  lemma {:induction false} RecordedTallies(t: Tables, sessionId: string, records: seq<Record>, now: int)
    requires sessionId in t.sessions
    ensures Recorded(t, sessionId, records, now).sessions == t.sessions[sessionId := Tally(t.sessions[sessionId], records)]
  {
    if records == [] {
      assert t.sessions[sessionId := t.sessions[sessionId]] == t.sessions;
    } else {
      RecordedTallies(t, sessionId, records[..|records| - 1], now);
    }
  }

  /** Logging a batch keeps the database consistent, whichever session it names. */
  lemma {:induction false} RecordedKeepsConsistent(t: Tables, sessionId: string, records: seq<Record>, now: int)
    requires Consistent(t)
    ensures Consistent(Recorded(t, sessionId, records, now))
  {
    if records != [] {
      var r := records[|records| - 1];
      RecordedKeepsConsistent(t, sessionId, records[..|records| - 1], now);
      WithMessageKeepsConsistent(Recorded(t, sessionId, records[..|records| - 1], now), sessionId,
                                 r.direction, r.rawJson, r.methodName, r.isError, r.latencyMs, now);
    }
  }

  /** Unfolding `Recorded` at its last record, for a session that exists. */
  lemma RecordedLast(t: Tables, sessionId: string, records: seq<Record>, now: int)
    requires records != []
    requires sessionId in Recorded(t, sessionId, records[..|records| - 1], now).sessions
    ensures var before := Recorded(t, sessionId, records[..|records| - 1], now).messages;
      Recorded(t, sessionId, records, now).messages ==
        before + [RowOf(|before| + 1, sessionId, records[|records| - 1], now)]
  {
  }

  lemma RowsLast(firstId: nat, sessionId: string, records: seq<Record>, now: int)
    requires records != []
    ensures Rows(firstId, sessionId, records, now) ==
      Rows(firstId, sessionId, records[..|records| - 1], now) +
      [RowOf(firstId + |records| - 1, sessionId, records[|records| - 1], now)]
  {
  }

  /** Feeding a chunk to a buffer that is the carry-over of `input` processes the next
      frames of `input + chunk` and leaves its carry-over. */
  lemma FeedStep(input: string, buffer: string, chunk: string)
    requires buffer == Remainder(input)
    ensures Remainder(buffer + chunk) == Remainder(input + chunk)
    ensures Frames(input) + Frames(buffer + chunk) == Frames(input + chunk)
  {
    FramesAppend(input, chunk);
  }

  /** One proxied child server, from `startProxy` to its exit. */
  class Recorder {
    const store: Store
    const sessionId: string
    const parse: Parser
    var pending: PendingMap
    var clientBuffer: string
    var serverBuffer: string
    /** Whether the host's input has not ended yet; forwarding to the child stops once it
        has. */
    var childStdinOpen: bool
    /** Bytes written to the child's stdin and to the host's stdout. */
    var toServer: string
    var toClient: string
    /** Live-feed messages broadcast so far. */
    var outbox: seq<Event>

    /** The database is consistent and the session being recorded exists, and each
        side's buffer holds no complete frame: every line feed read so far has been acted
        on. */
    ghost predicate Valid()
      reads this, store
    {
      && store.Valid()
      && sessionId in store.tables.sessions
      && NoNewline(clientBuffer)
      && NoNewline(serverBuffer)
    }

    /** `startProxy` up to the spawn: the session is created as active, with the command
        line joined by single spaces. */
    constructor (store: Store, command: string, args: seq<string>, sessionId: string,
                 parse: Parser, now: int)
      requires store.Valid() && sessionId !in store.tables.sessions
      modifies store
      ensures Valid()
      ensures this.store == store && this.sessionId == sessionId && this.parse == parse
      ensures store.tables == WithSession(old(store.tables), sessionId, Join([command] + args, " "), now)
      ensures pending == map[] && clientBuffer == "" && serverBuffer == "" && childStdinOpen
      ensures toServer == "" && toClient == "" && outbox == []
    {
      this.store := store;
      this.sessionId := sessionId;
      this.parse := parse;
      pending := map[];
      clientBuffer, serverBuffer := "", "";
      childStdinOpen := true;
      toServer, toClient, outbox := "", "", [];
      new;
      WithSessionKeepsConsistent(store.tables, sessionId, Join([command] + args, " "), now);
      var ok := store.CreateSession(sessionId, Join([command] + args, " "), now);
    }

    /** The body of the `processBuffer` loop for one frame: classify it and, when it is
        recorded, `insertMessage` and then `broadcast("message", ...)`. */
    method LogLine(line: string, dir: Direction, now: int)
      requires sessionId in store.tables.sessions
      modifies this`pending, this`outbox, store
      ensures sessionId in store.tables.sessions
      ensures var step := StepLine(old(pending), dir, line, parse, now);
        && pending == step.0
        && (step.1.None? ==> store.tables == old(store.tables) && outbox == old(outbox))
        && (step.1.Some? ==>
              var r := step.1.value;
              && store.tables == WithMessage(old(store.tables), sessionId, r.direction, r.rawJson,
                                             r.methodName, r.isError, r.latencyMs, now)
              && outbox == old(outbox) + [EventOf(sessionId, r, now)])
    {
      var step := StepLine(pending, dir, line, parse, now);
      if step.1.Some? {
        var r := step.1.value;
        var ok := store.InsertMessage(sessionId, r.direction, r.rawJson, r.methodName, r.isError, r.latencyMs, now);
        outbox := outbox + [EventOf(sessionId, r, now)];
      }
      pending := step.0;
    }

    /** One turn of the `for (const line of lines)` loop, stated against the frames
        handled before it: `done` read from `pending0` gave `records`, logged on top of
        `tables0` and `outbox0`; with `line` they give `records'`. */
    method LogNext(line: string, dir: Direction, now: int, ghost pending0: PendingMap,
                   ghost done: seq<string>, ghost records: seq<Record>, ghost tables0: Tables,
                   ghost outbox0: seq<Event>) returns (ghost records': seq<Record>)
      requires sessionId in store.tables.sessions
      requires RecordLines(pending0, dir, done, parse, now) == Outcome(pending, records)
      requires store.tables == Recorded(tables0, sessionId, records, now)
      requires outbox == outbox0 + Events(sessionId, records, now)
      modifies this`pending, this`outbox, store
      ensures sessionId in store.tables.sessions
      ensures RecordLines(pending0, dir, done + [line], parse, now) == Outcome(pending, records')
      ensures store.tables == Recorded(tables0, sessionId, records', now)
      ensures outbox == outbox0 + Events(sessionId, records', now)
    {
      RecordLinesSnoc(pending0, dir, done, line, parse, now);
      ghost var step := StepLine(pending, dir, line, parse, now);
      LogLine(line, dir, now);
      if step.1.Some? {
        var r := step.1.value;
        RecordedSnoc(tables0, sessionId, records, r, now);
        EventsSnoc(sessionId, records, r, now);
        AppendAssoc(outbox0, Events(sessionId, records, now), [EventOf(sessionId, r, now)]);
        records' := records + [r];
      } else {
        AppendEmpty(records);
        records' := records;
      }
    }

    /** The `for (const line of lines)` loop of `processBuffer`: every frame in order, all
        stamped with the same `Date.now()`. */
    method ProcessLines(lines: seq<string>, dir: Direction, now: int)
      requires sessionId in store.tables.sessions
      modifies this`pending, this`outbox, store
      ensures sessionId in store.tables.sessions
      ensures var o := RecordLines(old(pending), dir, lines, parse, now);
        && pending == o.pending
        && store.tables == Recorded(old(store.tables), sessionId, o.records, now)
        && outbox == old(outbox) + Events(sessionId, o.records, now)
    {
      ghost var records: seq<Record> := [];
      ghost var tables0, outbox0 := store.tables, outbox;
      var i := 0;
      TakeAll(lines);
      AppendEmpty(outbox0);
      while i < |lines|
        invariant 0 <= i <= |lines|
        invariant RecordLines(old(pending), dir, lines[..i], parse, now) == Outcome(pending, records)
        invariant sessionId in store.tables.sessions
        invariant store.tables == Recorded(tables0, sessionId, records, now)
        invariant outbox == outbox0 + Events(sessionId, records, now)
      {
        records := LogNext(lines[i], dir, now, old(pending), lines[..i], records, tables0, outbox0);
        TakeSnoc(lines, i);
        i := i + 1;
      }
      TakeAll(lines);
    }

    /** `processBuffer`: splits the buffer on line feeds, logs every complete frame and
        returns the incomplete tail, which the caller keeps as its buffer. */
    method ProcessBuffer(buffer: string, dir: Direction, now: int) returns (remaining: string)
      requires sessionId in store.tables.sessions
      modifies this`pending, this`outbox, store
      ensures sessionId in store.tables.sessions
      ensures remaining == Remainder(buffer)
      ensures var o := RecordLines(old(pending), dir, Frames(buffer), parse, now);
        && pending == o.pending
        && store.tables == Recorded(old(store.tables), sessionId, o.records, now)
        && outbox == old(outbox) + Events(sessionId, o.records, now)
    {
      ProcessLines(Frames(buffer), dir, now);
      remaining := Remainder(buffer);
    }

    /** A chunk from the host: appended to the client buffer, processed as client to
        server, then forwarded unchanged to the child while its stdin is open. */
    method OnClientData(chunk: string, now: int)
      requires Valid()
      modifies this`clientBuffer, this`pending, this`outbox, this`toServer, store
      ensures Valid()
      ensures clientBuffer == Remainder(old(clientBuffer) + chunk)
      ensures var o := RecordLines(old(pending), ClientToServer, Frames(old(clientBuffer) + chunk), parse, now);
        && pending == o.pending
        && store.tables == Recorded(old(store.tables), sessionId, o.records, now)
        && outbox == old(outbox) + Events(sessionId, o.records, now)
      ensures toServer == if old(childStdinOpen) then old(toServer) + chunk else old(toServer)
    {
      ghost var o := RecordLines(pending, ClientToServer, Frames(clientBuffer + chunk), parse, now);
      RecordedKeepsConsistent(store.tables, sessionId, o.records, now);
      clientBuffer := ProcessBuffer(clientBuffer + chunk, ClientToServer, now);
      if childStdinOpen {
        toServer := toServer + chunk;
      }
    }

    /** A chunk from the child: appended to the server buffer, processed as server to
        client, then forwarded unchanged to the host. */
    method OnServerData(chunk: string, now: int)
      requires Valid()
      modifies this`serverBuffer, this`pending, this`outbox, this`toClient, store
      ensures Valid()
      ensures serverBuffer == Remainder(old(serverBuffer) + chunk)
      ensures var o := RecordLines(old(pending), ServerToClient, Frames(old(serverBuffer) + chunk), parse, now);
        && pending == o.pending
        && store.tables == Recorded(old(store.tables), sessionId, o.records, now)
        && outbox == old(outbox) + Events(sessionId, o.records, now)
      ensures toClient == old(toClient) + chunk
    {
      ghost var o := RecordLines(pending, ServerToClient, Frames(serverBuffer + chunk), parse, now);
      RecordedKeepsConsistent(store.tables, sessionId, o.records, now);
      serverBuffer := ProcessBuffer(serverBuffer + chunk, ServerToClient, now);
      toClient := toClient + chunk;
    }

    /** The host closed its stdin: the child's stdin is ended, nothing is logged. */
    method OnClientEnd()
      requires Valid()
      modifies this`childStdinOpen
      ensures Valid()
      ensures !childStdinOpen
    {
      childStdinOpen := false;
    }

    /** The child exited: the session ends as completed exactly when the exit code is 0
        (a signal gives no code and counts as an error), and subscribers are told. */
    method OnExit(code: Option<int>, now: int)
      requires Valid()
      modifies this`outbox, store
      ensures Valid()
      ensures store.tables == WithEnd(old(store.tables), sessionId, if code == Some(0) then Completed else Error, now)
      ensures outbox == old(outbox) + [SessionEnd(sessionId, code)]
    {
      WithEndKeepsConsistent(store.tables, sessionId, if code == Some(0) then Completed else Error, now);
      store.EndSession(sessionId, if code == Some(0) then Completed else Error, now);
      outbox := outbox + [SessionEnd(sessionId, code)];
    }

    /** The child could not be spawned or crashed: the session ends as an error, and no
        `session_end` message is broadcast. */
    method OnError(now: int)
      requires Valid()
      modifies store
      ensures Valid()
      ensures store.tables == WithEnd(old(store.tables), sessionId, Error, now)
    {
      WithEndKeepsConsistent(store.tables, sessionId, Error, now);
      store.EndSession(sessionId, Error, now);
    }
  }

  /** Whatever the chunking, once the host's bytes have been fed through `OnClientData`
      the frames processed are the frames of the whole stream: feeding chunk by chunk
      splits exactly as splitting the concatenation once. */
  lemma ChunkingDoesNotMatter(chunks: seq<string>)
    ensures FeedFrames("", chunks) == Frames(Concat(chunks))
    ensures FeedBuffer("", chunks) == Remainder(Concat(chunks))
  {
    ChunkingIndependent("", chunks);
    AppendEmpty(Concat(chunks));
  }
}
