/** The read-only HTTP API of packages/proxy/src/api.ts: a route table over the request
    method and the path, answered from the store with JSON and the same CORS headers on
    every reply. The URL is already reduced to its path. */
module Api {
  import opened Wrappers
  import opened Db

  /** The headers `json` writes on every reply. */
  const JsonHeaders: seq<(string, string)> := [
    ("Content-Type", "application/json"),
    ("Access-Control-Allow-Origin", "*"),
    ("Access-Control-Allow-Methods", "GET, OPTIONS"),
    ("Access-Control-Allow-Headers", "Content-Type")
  ]

  const SessionsPath: string := "/api/sessions"
  /** What precedes the id in `/api/sessions/:id` and `/api/sessions/:id/messages`. */
  const SessionPrefix: string := "/api/sessions/"
  const MessagesSuffix: string := "/messages"

  /** The JSON value a reply carries. */
  datatype Body =
    | Null
    | Sessions(sessions: seq<SessionRow>)
    | Session(session: SessionRow)
    | Messages(messages: seq<MessageRow>)
    | Failure(error: string)

  datatype Reply = Reply(status: int, headers: seq<(string, string)>, body: Body)

  /** The branch of `handleRequest` a request takes. */
  datatype Route = Preflight | ListSessions | ShowSession(id: string) | ListMessages(id: string) | NoRoute

  /** What the capture group `([^/]+)` accepts. */
  predicate Segment(s: string) {
    |s| > 0 && '/' !in s
  }

  /** The id `^\/api\/sessions\/([^/]+)$` captures, if the path matches. */
  function SessionPathId(path: string): (r: Option<string>)
    ensures r.Some? ==> Segment(r.value) && path == SessionPrefix + r.value
  {
    var n := |SessionPrefix|;
    if |path| > n && path[..n] == SessionPrefix && '/' !in path[n..] then
      assert path == path[..n] + path[n..];
      Some(path[n..])
    else None
  }

  /** The id `^\/api\/sessions\/([^/]+)\/messages$` captures, if the path matches. */
  function MessagesPathId(path: string): (r: Option<string>)
    ensures r.Some? ==> Segment(r.value) && path == SessionPrefix + r.value + MessagesSuffix
  {
    var n, m := |SessionPrefix|, |MessagesSuffix|;
    if |path| > n + m && path[..n] == SessionPrefix && path[|path| - m..] == MessagesSuffix
       && '/' !in path[n..|path| - m] then
      assert path == path[..n] + path[n..|path| - m] + path[|path| - m..];
      Some(path[n..|path| - m])
    else None
  }

  /** The route table, tried in the order of `handleRequest`: OPTIONS first, whatever the
      path; then the three GET routes; anything else matches nothing. */
  function RouteOf(httpMethod: string, path: string): Route {
    if httpMethod == "OPTIONS" then Preflight
    else if path == SessionsPath && httpMethod == "GET" then ListSessions
    else if SessionPathId(path).Some? && httpMethod == "GET" then ShowSession(SessionPathId(path).value)
    else if MessagesPathId(path).Some? && httpMethod == "GET" then ListMessages(MessagesPathId(path).value)
    else NoRoute
  }

  /** The first `[^/]+` of a session path captures exactly the id it was built from. */
  lemma SessionPathMatches(path: string, id: string)
    ensures SessionPathId(path) == Some(id) <==> Segment(id) && path == SessionPrefix + id
  {
    if Segment(id) && path == SessionPrefix + id {
      assert path[..|SessionPrefix|] == SessionPrefix;
      assert path[|SessionPrefix|..] == id;
    }
  }

  /** The messages path captures exactly the id it was built from. */
  lemma MessagesPathMatches(path: string, id: string)
    ensures MessagesPathId(path) == Some(id) <==> Segment(id) && path == SessionPrefix + id + MessagesSuffix
  {
    if Segment(id) && path == SessionPrefix + id + MessagesSuffix {
      var n, m := |SessionPrefix|, |MessagesSuffix|;
      assert path[..n] == SessionPrefix;
      assert path[|path| - m..] == MessagesSuffix;
      assert path[n..|path| - m] == id;
    }
  }

  /** No path names both a session and its messages, and the list path names neither. */
  lemma PathsDisjoint(path: string)
    ensures !(SessionPathId(path).Some? && MessagesPathId(path).Some?)
    ensures SessionPathId(SessionsPath) == None && MessagesPathId(SessionsPath) == None
  {
    if SessionPathId(path).Some? && MessagesPathId(path).Some? {
      SuffixBreaksSegment(SessionPathId(path).value, MessagesPathId(path).value);
    }
  }

  /** What follows the prefix of a messages path holds a '/', so it is no id. */
  lemma SuffixBreaksSegment(a: string, b: string)
    requires SessionPrefix + a == SessionPrefix + b + MessagesSuffix
    ensures !Segment(a)
  {
    var k := |SessionPrefix| + |b|;
    assert (SessionPrefix + a)[k] == a[|b|];
    assert (SessionPrefix + b + MessagesSuffix)[k] == '/';
  }

  /** The route table read backwards: each route is taken by exactly the requests
      listed, and every method other than GET and OPTIONS is refused. */
  lemma RouteTable(httpMethod: string, path: string, id: string)
    ensures httpMethod == "OPTIONS" ==> RouteOf(httpMethod, path) == Preflight
    ensures RouteOf(httpMethod, path) == ListSessions <==> httpMethod == "GET" && path == SessionsPath
    ensures RouteOf(httpMethod, path) == ShowSession(id) <==>
      httpMethod == "GET" && Segment(id) && path == SessionPrefix + id
    ensures RouteOf(httpMethod, path) == ListMessages(id) <==>
      httpMethod == "GET" && Segment(id) && path == SessionPrefix + id + MessagesSuffix
    ensures httpMethod != "GET" && httpMethod != "OPTIONS" ==> RouteOf(httpMethod, path) == NoRoute
  {
    SessionPathMatches(path, id);
    MessagesPathMatches(path, id);
    PathsDisjoint(path);
  }

  /** A `getSessions` answer: every session once, most recently started first. */
  ghost predicate SessionListing(sessions: map<string, SessionRow>, rows: seq<SessionRow>) {
    && |rows| == |sessions|
    && (forall r :: r in rows <==> r in sessions.Values)
    && (forall i, j :: 0 <= i < j < |rows| ==> rows[i].startedAt >= rows[j].startedAt)
  }

  /** A `getMessages` answer: the rows of that session, oldest first. */
  ghost predicate MessageListing(messages: seq<MessageRow>, sessionId: string, rows: seq<MessageRow>) {
    && multiset(rows) == multiset(MessagesOf(messages, sessionId))
    && (forall i, j :: 0 <= i < j < |rows| ==> rows[i].timestamp <= rows[j].timestamp)
  }

  /** `handleRequest`: the reply `json` would write, with its status and body. It only
      reads the store. */
  method HandleRequest(store: Store, httpMethod: string, path: string) returns (reply: Reply)
    requires store.Valid()
    ensures reply.headers == JsonHeaders
    ensures match RouteOf(httpMethod, path)
      case Preflight => reply.status == 204 && reply.body == Null
      case ListSessions =>
        reply.status == 200 && reply.body.Sessions? && SessionListing(store.tables.sessions, reply.body.sessions)
      case ShowSession(id) =>
        if id in store.tables.sessions then reply.status == 200 && reply.body == Session(store.tables.sessions[id])
        else reply.status == 404 && reply.body == Failure("Session not found")
      case ListMessages(id) =>
        if id in store.tables.sessions then
          reply.status == 200 && reply.body.Messages? && MessageListing(store.tables.messages, id, reply.body.messages)
        else reply.status == 404 && reply.body == Failure("Session not found")
      case NoRoute => reply.status == 404 && reply.body == Failure("Not found")
  {
    if httpMethod == "OPTIONS" {
      return Reply(204, JsonHeaders, Null);
    }
    if path == SessionsPath && httpMethod == "GET" {
      var rows := store.GetSessions();
      return Reply(200, JsonHeaders, Sessions(rows));
    }
    var sessionMatch := SessionPathId(path);
    if sessionMatch.Some? && httpMethod == "GET" {
      var session := store.GetSession(sessionMatch.value);
      if session.None? {
        return Reply(404, JsonHeaders, Failure("Session not found"));
      }
      return Reply(200, JsonHeaders, Session(session.value));
    }
    var messagesMatch := MessagesPathId(path);
    if messagesMatch.Some? && httpMethod == "GET" {
      var session := store.GetSession(messagesMatch.value);
      if session.None? {
        return Reply(404, JsonHeaders, Failure("Session not found"));
      }
      var rows := store.GetMessages(messagesMatch.value);
      return Reply(200, JsonHeaders, Messages(rows));
    }
    return Reply(404, JsonHeaders, Failure("Not found"));
  }
}
