/** The session store of packages/proxy/src/db.ts: two SQLite tables, `sessions` and
    `messages`, reduced to their logical content (`Tables`). The `sessions` table is a map
    from its primary key; the `messages` table is an append-only sequence in insertion
    order. Nothing is ever deleted, so the AUTOINCREMENT key of the n-th message is n. */
module Db {
  import opened Wrappers
  import opened Rpc

  /** The `status` column: 'active', 'completed' or 'error'. */
  datatype Status = Active | Completed | Error

  datatype SessionRow = SessionRow(
    id: string,
    serverCommand: string,
    startedAt: int,
    endedAt: Option<int>,
    status: Status,
    totalMessages: nat,
    errorCount: nat)

  /** A row of `messages`; `isError` is the INTEGER column holding 1 or 0. */
  datatype MessageRow = MessageRow(
    id: nat,
    sessionId: string,
    direction: Direction,
    timestamp: int,
    rawJson: string,
    methodName: Option<string>,
    isError: int,
    latencyMs: Option<int>)

  const MaxStoredPayload: nat := 100000
  const TruncationMarker: string := "\n...[truncated]"

  /** The payload `insertMessage` stores for `raw`. */
  function Truncate(raw: string): (stored: string)
    ensures |raw| <= MaxStoredPayload ==> stored == raw
    ensures |raw| > MaxStoredPayload ==>
      |stored| == MaxStoredPayload + |TruncationMarker| &&
      stored[..MaxStoredPayload] == raw[..MaxStoredPayload] &&
      stored[MaxStoredPayload..] == TruncationMarker
  {
    if |raw| > MaxStoredPayload then raw[..MaxStoredPayload] + TruncationMarker else raw
  }

  /** For a payload without line feeds (every recorded frame), the stored text shows
      whether it was cut: it is the payload itself exactly when the payload fits. */
  lemma TruncationIsVisible(raw: string)
    requires forall k :: 0 <= k < |raw| ==> raw[k] != '\n'
    ensures Truncate(raw) == raw <==> |raw| <= MaxStoredPayload
  {
    if |raw| > MaxStoredPayload {
      assert Truncate(raw)[MaxStoredPayload] == '\n' != raw[MaxStoredPayload];
    }
  }

  /** The rows of session `sid`, in insertion order. */
  function MessagesOf(ms: seq<MessageRow>, sid: string): (r: seq<MessageRow>)
    ensures |r| <= |ms|
    ensures forall k :: 0 <= k < |r| ==> r[k].sessionId == sid
  {
    if ms == [] then []
    else
      var init := MessagesOf(ms[..|ms| - 1], sid);
      if ms[|ms| - 1].sessionId == sid then init + [ms[|ms| - 1]] else init
  }

  /** Number of rows whose `is_error` is 1. */
  function ErrorCount(ms: seq<MessageRow>): nat {
    if ms == [] then 0
    else ErrorCount(ms[..|ms| - 1]) + (if ms[|ms| - 1].isError == 1 then 1 else 0)
  }

  lemma {:induction false} ErrorCountBounded(ms: seq<MessageRow>)
    ensures ErrorCount(ms) <= |ms|
  {
    if ms != [] {
      ErrorCountBounded(ms[..|ms| - 1]);
    }
  }

  lemma MessagesOfSnoc(ms: seq<MessageRow>, m: MessageRow, sid: string)
    ensures MessagesOf(ms + [m], sid) ==
      if m.sessionId == sid then MessagesOf(ms, sid) + [m] else MessagesOf(ms, sid)
  {
    assert (ms + [m])[..|ms|] == ms;
  }

  lemma ErrorCountSnoc(ms: seq<MessageRow>, m: MessageRow)
    ensures ErrorCount(ms + [m]) == ErrorCount(ms) + (if m.isError == 1 then 1 else 0)
  {
    assert (ms + [m])[..|ms|] == ms;
  }

  lemma {:induction false} MessagesOfAbsent(ms: seq<MessageRow>, sid: string)
    requires forall i :: 0 <= i < |ms| ==> ms[i].sessionId != sid
    ensures MessagesOf(ms, sid) == []
  {
    if ms != [] {
      MessagesOfAbsent(ms[..|ms| - 1], sid);
    }
  }

  /** A session row's counters agree with the rows of `messages` that belong to it. */
  ghost predicate Counted(row: SessionRow, ms: seq<MessageRow>) {
    row.totalMessages == |MessagesOf(ms, row.id)| && row.errorCount == ErrorCount(MessagesOf(ms, row.id))
  }

  ghost predicate WellFormedMessage(m: MessageRow, sessions: map<string, SessionRow>) {
    m.sessionId in sessions && (m.isError == 0 || m.isError == 1)
  }

  /** The logical content of the database file. */
  datatype Tables = Tables(sessions: map<string, SessionRow>, messages: seq<MessageRow>)

  /** The database's invariant. Keys are the rows' ids; every message references an
      existing session (better-sqlite3 enforces the REFERENCES constraint); the message
      ids are 1, 2, ... in insertion order; counters are maintained alongside the inserts. */
  ghost predicate Consistent(t: Tables) {
    ConsistentTables(t.sessions, t.messages)
  }

  ghost predicate ConsistentTables(sessions: map<string, SessionRow>, messages: seq<MessageRow>) {
    && (forall k :: k in sessions ==> sessions[k].id == k)
    && (forall i :: 0 <= i < |messages| ==> messages[i].id == i + 1)
    && (forall i :: 0 <= i < |messages| ==> WellFormedMessage(messages[i], sessions))
    && (forall k :: k in sessions ==> Counted(sessions[k], messages))
  }

  /** Message ids are unique and strictly increase in insertion order. */
  lemma IdsIncrease(t: Tables)
    requires Consistent(t)
    ensures forall i, j :: 0 <= i < j < |t.messages| ==> t.messages[i].id < t.messages[j].id
  {
  }

  /** `0 <= error_count <= total_messages` in every session. */
  lemma CountersOrdered(t: Tables)
    requires Consistent(t)
    ensures forall k :: k in t.sessions ==> t.sessions[k].errorCount <= t.sessions[k].totalMessages
  {
    forall k | k in t.sessions
      ensures t.sessions[k].errorCount <= t.sessions[k].totalMessages
    {
      ErrorCountBounded(MessagesOf(t.messages, k));
    }
  }

  /** `UPDATE sessions SET total_messages = total_messages + 1[, error_count = error_count + 1]` */
  function Bump(row: SessionRow, isError: bool): (r: SessionRow)
    ensures r.totalMessages == row.totalMessages + 1
    ensures r.errorCount == row.errorCount + (if isError then 1 else 0)
    ensures r == row.(totalMessages := r.totalMessages, errorCount := r.errorCount)
  {
    row.(totalMessages := row.totalMessages + 1,
         errorCount := if isError then row.errorCount + 1 else row.errorCount)
  }

  function NewMessage(
    id: nat, sessionId: string, direction: Direction, rawJson: string,
    methodName: Option<string>, isError: bool, latencyMs: Option<int>, now: int): MessageRow
  {
    MessageRow(id, sessionId, direction, now, Truncate(rawJson), methodName,
               if isError then 1 else 0, latencyMs)
  }

  /** The tables after `createSession` of a fresh id. */
  function WithSession(t: Tables, id: string, serverCommand: string, now: int): Tables {
    t.(sessions := t.sessions[id := SessionRow(id, serverCommand, now, None, Active, 0, 0)])
  }

  /** The tables after `endSession`: only the row with that id changes, if there is one. */
  function WithEnd(t: Tables, id: string, status: Status, now: int): Tables {
    if id in t.sessions
    then t.(sessions := t.sessions[id := t.sessions[id].(endedAt := Some(now), status := status)])
    else t
  }

  /** The tables after `insertMessage`: the row is appended under the next id and its
      session's counters are bumped; for an unknown session the insert fails and nothing
      changes. */
  function WithMessage(t: Tables, sessionId: string, direction: Direction, rawJson: string,
                       methodName: Option<string>, isError: bool, latencyMs: Option<int>, now: int): Tables
  {
    if sessionId in t.sessions
    then Tables(t.sessions[sessionId := Bump(t.sessions[sessionId], isError)],
                t.messages + [NewMessage(|t.messages| + 1, sessionId, direction, rawJson, methodName, isError, latencyMs, now)])
    else t
  }

  lemma WithSessionKeepsConsistent(t: Tables, id: string, serverCommand: string, now: int)
    requires Consistent(t) && id !in t.sessions
    ensures Consistent(WithSession(t, id, serverCommand, now))
  {
    CreateKeepsConsistent(t.sessions, t.messages, SessionRow(id, serverCommand, now, None, Active, 0, 0));
  }

  lemma CreateKeepsConsistent(sessions: map<string, SessionRow>, messages: seq<MessageRow>, row: SessionRow)
    requires ConsistentTables(sessions, messages)
    requires row.id !in sessions && row.totalMessages == 0 && row.errorCount == 0
    ensures ConsistentTables(sessions[row.id := row], messages)
  {
    MessagesOfAbsent(messages, row.id);
  }

  lemma WithEndKeepsConsistent(t: Tables, id: string, status: Status, now: int)
    requires Consistent(t)
    ensures Consistent(WithEnd(t, id, status, now))
  {
    if id in t.sessions {
      EndKeepsConsistent(t.sessions, t.messages, id, t.sessions[id].(endedAt := Some(now), status := status));
    }
  }

  lemma EndKeepsConsistent(sessions: map<string, SessionRow>, messages: seq<MessageRow>, id: string, row: SessionRow)
    requires ConsistentTables(sessions, messages)
    requires id in sessions && row.id == id
    requires row.totalMessages == sessions[id].totalMessages && row.errorCount == sessions[id].errorCount
    ensures ConsistentTables(sessions[id := row], messages)
  {
    var sessions' := sessions[id := row];
    forall k | k in sessions' ensures Counted(sessions'[k], messages) {
      assert k == id || sessions'[k] == sessions[k];
    }
  }

  lemma WithMessageKeepsConsistent(
    t: Tables, sessionId: string, direction: Direction, rawJson: string,
    methodName: Option<string>, isError: bool, latencyMs: Option<int>, now: int)
    requires Consistent(t)
    ensures Consistent(WithMessage(t, sessionId, direction, rawJson, methodName, isError, latencyMs, now))
  {
    if sessionId in t.sessions {
      var m := NewMessage(|t.messages| + 1, sessionId, direction, rawJson, methodName, isError, latencyMs, now);
      InsertKeepsConsistent(t.sessions, t.messages, m, isError);
    }
  }

  lemma InsertKeepsConsistent(
    sessions: map<string, SessionRow>, messages: seq<MessageRow>, m: MessageRow, isError: bool)
    requires ConsistentTables(sessions, messages)
    requires m.sessionId in sessions && m.id == |messages| + 1
    requires m.isError == if isError then 1 else 0
    ensures ConsistentTables(sessions[m.sessionId := Bump(sessions[m.sessionId], isError)], messages + [m])
  {
    InsertKeepsCounts(sessions, messages, m, isError);
    InsertKeepsRows(sessions, messages, m, isError);
  }

  lemma InsertKeepsCounts(
    sessions: map<string, SessionRow>, messages: seq<MessageRow>, m: MessageRow, isError: bool)
    requires forall k :: k in sessions ==> sessions[k].id == k && Counted(sessions[k], messages)
    requires m.sessionId in sessions && m.isError == if isError then 1 else 0
    ensures var sessions' := sessions[m.sessionId := Bump(sessions[m.sessionId], isError)];
      forall k :: k in sessions' ==> Counted(sessions'[k], messages + [m])
  {
    var sessions' := sessions[m.sessionId := Bump(sessions[m.sessionId], isError)];
    forall k | k in sessions' ensures Counted(sessions'[k], messages + [m]) {
      MessagesOfSnoc(messages, m, k);
      if k == m.sessionId {
        ErrorCountSnoc(MessagesOf(messages, k), m);
      }
    }
  }

  lemma InsertKeepsRows(
    sessions: map<string, SessionRow>, messages: seq<MessageRow>, m: MessageRow, isError: bool)
    requires forall i :: 0 <= i < |messages| ==> messages[i].id == i + 1
    requires forall i :: 0 <= i < |messages| ==> WellFormedMessage(messages[i], sessions)
    requires m.sessionId in sessions && m.id == |messages| + 1
    requires m.isError == if isError then 1 else 0
    ensures var sessions', messages' := sessions[m.sessionId := Bump(sessions[m.sessionId], isError)], messages + [m];
      forall i :: 0 <= i < |messages'| ==> WellFormedMessage(messages'[i], sessions') && messages'[i].id == i + 1
  {
    var sessions' := sessions[m.sessionId := Bump(sessions[m.sessionId], isError)];
    var messages' := messages + [m];
    forall i | 0 <= i < |messages'| ensures WellFormedMessage(messages'[i], sessions') && messages'[i].id == i + 1 {
      if i < |messages| {
        assert messages'[i] == messages[i];
      }
    }
  }


  /** Ascending by `key`; ties in any order, as SQL leaves them. */
  ghost predicate SortedBy<T>(s: seq<T>, key: T -> int) {
    forall i, j :: 0 <= i < j < |s| ==> key(s[i]) <= key(s[j])
  }

  /** One step of producing an ORDER BY result: put `x` among rows already in order,
      before the first row with a greater key. */
  function InsertSorted<T>(s: seq<T>, x: T, key: T -> int): (r: seq<T>)
    ensures multiset(r) == multiset(s) + multiset{x}
    ensures r[0] == x || (|s| > 0 && r[0] == s[0])
  {
    if s == [] || key(x) < key(s[0]) then [x] + s
    else
      var rest := InsertSorted(s[1..], x, key);
      assert s == [s[0]] + s[1..];
      [s[0]] + rest
  }

  /** Inserting into rows in order keeps them in order. */
  lemma {:induction false} InsertSortedKeepsOrder<T>(s: seq<T>, x: T, key: T -> int)
    requires SortedBy(s, key)
    ensures SortedBy(InsertSorted(s, x, key), key)
  {
    if s != [] && key(x) >= key(s[0]) {
      var rest := InsertSorted(s[1..], x, key);
      InsertSortedKeepsOrder(s[1..], x, key);
      assert key(s[0]) <= key(rest[0]);
      var r := [s[0]] + rest;
      forall i, j | 0 <= i < j < |r| ensures key(r[i]) <= key(r[j]) {
        if i > 0 {
          assert r[i] == rest[i - 1] && r[j] == rest[j - 1];
        } else {
          assert r[j] == rest[j - 1];
        }
      }
    }
  }

  /** The key of `ORDER BY started_at DESC`. */
  function NewestFirst(row: SessionRow): int { -row.startedAt }

  /** The key of `ORDER BY timestamp ASC`. */
  function OldestFirst(m: MessageRow): int { m.timestamp }

  /** The open database: the module-level `db` handle of db.ts. */
  class Store {
    var tables: Tables

    ghost predicate Valid()
      reads this
    {
      Consistent(tables)
    }

    /** `getDb` on the first run: the file is created with both tables empty. */
    constructor ()
      ensures Valid() && tables == Tables(map[], [])
    {
      tables := Tables(map[], []);
    }

    /** `getDb` on a later run: `CREATE TABLE IF NOT EXISTS` keeps the sessions and
        messages of earlier runs, and message ids continue after theirs. */
    constructor Reopen(saved: Tables)
      requires Consistent(saved)
      ensures Valid() && tables == saved
    {
      tables := saved;
    }

    /** `createSession`: INSERT with status 'active', `ended_at` NULL and both counters at
        their default 0; a second session with the same primary key is refused. */
    method CreateSession(id: string, serverCommand: string, now: int) returns (ok: bool)
      modifies this
      ensures ok <==> id !in old(tables.sessions)
      ensures tables == if ok then WithSession(old(tables), id, serverCommand, now) else old(tables)
    {
      if id in tables.sessions {
        ok := false;
      } else {
        tables := WithSession(tables, id, serverCommand, now);
        ok := true;
      }
    }

    /** `endSession`: overwrites `ended_at` and `status` of that session only; an unknown
        id matches no row. */
    method EndSession(id: string, status: Status, now: int)
      requires status != Active
      modifies this
      ensures tables == WithEnd(old(tables), id, status, now)
    {
      tables := WithEnd(tables, id, status, now);
    }

    /** `insertMessage`: appends one row with the next id, the truncated payload and
        `is_error` as 1 or 0, then bumps that session's counters. The row is refused when
        the session does not exist. */
    method InsertMessage(
      sessionId: string, direction: Direction, rawJson: string,
      methodName: Option<string>, isError: bool, latencyMs: Option<int>, now: int)
      returns (ok: bool)
      modifies this
      ensures ok <==> sessionId in old(tables.sessions)
      ensures tables == WithMessage(old(tables), sessionId, direction, rawJson, methodName, isError, latencyMs, now)
    {
      ok := sessionId in tables.sessions;
      tables := WithMessage(tables, sessionId, direction, rawJson, methodName, isError, latencyMs, now);
    }

    /** `getSessions`: every session, most recently started first. */
    method GetSessions() returns (rows: seq<SessionRow>)
      requires Valid()
      ensures |rows| == |tables.sessions|
      ensures forall r :: r in rows <==> r in tables.sessions.Values
      ensures forall i, j :: 0 <= i < j < |rows| ==> rows[i].startedAt >= rows[j].startedAt
    {
      rows := NewestSessionsFirst(tables.sessions);
    }

    /** `getSession`: the row with that primary key, if any. */
    function GetSession(id: string): (r: Option<SessionRow>)
      reads this
      requires Valid()
      ensures r.Some? <==> id in tables.sessions
      ensures r.Some? ==> r.value.id == id && r.value in tables.sessions.Values
    {
      if id in tables.sessions then Some(tables.sessions[id]) else None
    }

    /** `getMessages`: the rows of that session ordered by `timestamp` ascending (not by
        id); rows with equal timestamps may come in any order. */
    method GetMessages(sessionId: string) returns (rows: seq<MessageRow>)
      ensures multiset(rows) == multiset(MessagesOf(tables.messages, sessionId))
      ensures forall i, j :: 0 <= i < j < |rows| ==> rows[i].timestamp <= rows[j].timestamp
    {
      rows := OldestMessagesFirst(tables.messages, sessionId);
    }
  }

  /** `SELECT * FROM sessions ORDER BY started_at DESC` over a table keyed by id. */
  method NewestSessionsFirst(sessions: map<string, SessionRow>) returns (rows: seq<SessionRow>)
    requires forall k :: k in sessions ==> sessions[k].id == k
    ensures |rows| == |sessions|
    ensures forall r :: r in rows <==> r in sessions.Values
    ensures forall i, j :: 0 <= i < j < |rows| ==> rows[i].startedAt >= rows[j].startedAt
  {
    var todo := sessions.Keys;
    rows := [];
    while todo != {}
      invariant todo <= sessions.Keys
      invariant SortedBy(rows, NewestFirst)
      invariant |rows| + |todo| == |sessions.Keys|
      invariant forall r :: r in rows <==> r in sessions.Values && r.id !in todo
      decreases |todo|
    {
      var k :| k in todo;
      var row := sessions[k];
      ghost var before := rows;
      InsertSortedKeepsOrder(rows, row, NewestFirst);
      rows := InsertSorted(rows, row, NewestFirst);
      assert forall r :: r in rows <==> r in before || r == row by {
        assert forall r :: r in rows <==> r in multiset(rows);
      }
      todo := todo - {k};
      forall r | r in sessions.Values && r.id !in todo ensures r in rows {
        var k' :| k' in sessions && sessions[k'] == r;
        assert k' == r.id;
      }
    }
    forall i, j | 0 <= i < j < |rows| ensures rows[i].startedAt >= rows[j].startedAt {
      assert NewestFirst(rows[i]) <= NewestFirst(rows[j]);
    }
  }

  /** `SELECT * FROM messages WHERE session_id = ? ORDER BY timestamp ASC`. */
  method OldestMessagesFirst(messages: seq<MessageRow>, sessionId: string) returns (rows: seq<MessageRow>)
    ensures multiset(rows) == multiset(MessagesOf(messages, sessionId))
    ensures forall i, j :: 0 <= i < j < |rows| ==> rows[i].timestamp <= rows[j].timestamp
  {
    rows := [];
    var i := 0;
    while i < |messages|
      invariant 0 <= i <= |messages|
      invariant SortedBy(rows, OldestFirst)
      invariant multiset(rows) == multiset(MessagesOf(messages[..i], sessionId))
    {
      assert messages[..i + 1][..i] == messages[..i];
      if messages[i].sessionId == sessionId {
        InsertSortedKeepsOrder(rows, messages[i], OldestFirst);
        rows := InsertSorted(rows, messages[i], OldestFirst);
      }
      i := i + 1;
    }
    assert messages[..i] == messages;
    forall i, j | 0 <= i < j < |rows| ensures rows[i].timestamp <= rows[j].timestamp {
      assert OldestFirst(rows[i]) <= OldestFirst(rows[j]);
    }
  }

  /** While the clock does not go backwards, insertion order is already timestamp order,
      so the rows of one session in insertion order are a correct `getMessages` answer. */
  lemma {:induction false} MonotoneClockKeepsInsertionOrder(ms: seq<MessageRow>, sid: string)
    requires forall i, j :: 0 <= i < j < |ms| ==> ms[i].timestamp <= ms[j].timestamp
    ensures forall i, j :: 0 <= i < j < |MessagesOf(ms, sid)| ==>
      MessagesOf(ms, sid)[i].timestamp <= MessagesOf(ms, sid)[j].timestamp
    ensures forall m :: m in MessagesOf(ms, sid) ==> m in ms
  {
    if ms != [] {
      var init := ms[..|ms| - 1];
      MonotoneClockKeepsInsertionOrder(init, sid);
      var last := ms[|ms| - 1];
      forall m | m in MessagesOf(init, sid) ensures m.timestamp <= last.timestamp {
        var k :| 0 <= k < |init| && init[k] == m;
        assert ms[k] == m;
      }
    }
  }
}
