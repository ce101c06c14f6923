/** The dashboard's reading of a stored session (packages/dashboard/src/lib/api.ts): the
    message rows, as the API returns them, are paired into tool calls, one per
    client-to-server row, each with the response that answers its JSON-RPC id. */
module ToolCalls {
  import opened Wrappers
  import opened Rpc
  import opened Db
  import opened Text
  import opened Seqs

  /** A request paired with its response: one node of the timeline. */
  datatype ToolCall = ToolCall(
    id: string,
    methodName: string,
    request: MessageRow,
    response: Option<MessageRow>,
    latencyMs: Option<int>,
    isError: bool,
    index: nat)

  /** `m` answers `id`: a server-to-client row whose payload parses to an object with
      that id and no truthy `method`. */
  predicate Answers(parse: Parser, m: MessageRow, id: RpcId) {
    && m.direction == ServerToClient
    && var p := Parse(parse, m.rawJson);
    && p.Some? && ResponseShaped(p.value) && p.value.id.value == id
  }

  /** Where the last row of `ms` that answers `id` is, if any row does. */
  function LastAnswer(parse: Parser, ms: seq<MessageRow>, id: RpcId): (r: Option<nat>)
    ensures r.Some? ==> r.value < |ms| && Answers(parse, ms[r.value], id)
    ensures r.Some? ==> forall j :: r.value < j < |ms| ==> !Answers(parse, ms[j], id)
    ensures r.None? ==> forall j :: 0 <= j < |ms| ==> !Answers(parse, ms[j], id)
  {
    if ms == [] then None
    else if Answers(parse, ms[|ms| - 1], id) then Some(|ms| - 1)
    else LastAnswer(parse, ms[..|ms| - 1], id)
  }

  /** The response a row with JSON-RPC id `id` is paired with: the last answer wins. */
  function AnswerTo(parse: Parser, ms: seq<MessageRow>, id: RpcId): Option<MessageRow> {
    match LastAnswer(parse, ms, id)
    case None => None
    case Some(k) => Some(ms[k])
  }

  /** `parsed.id ?? null` of a request row; a payload that does not parse has no id. */
  function RequestId(parse: Parser, m: MessageRow): Option<RpcId> {
    match Parse(parse, m.rawJson)
    case None => None
    case Some(p) => p.id
  }

  /** The client-to-server rows of `ms`, in order: requests, notifications, and payloads
      that do not parse alike. */
  function Requests(ms: seq<MessageRow>): (rs: seq<MessageRow>)
    ensures |rs| <= |ms|
    ensures forall k :: 0 <= k < |rs| ==> rs[k].direction == ClientToServer
  {
    if ms == [] then []
    else
      var last := ms[|ms| - 1];
      Requests(ms[..|ms| - 1]) + if last.direction == ClientToServer then [last] else []
  }

  /** The tool call built for the `i`-th request row `req` of `ms`. */
  function CallOf(parse: Parser, ms: seq<MessageRow>, req: MessageRow, i: nat): ToolCall {
    var resp := if RequestId(parse, req).Some? then AnswerTo(parse, ms, RequestId(parse, req).value) else None;
    ToolCall("call-" + DecimalString(i), req.methodName.GetOr("unknown"), req, resp,
             if resp.Some? then resp.value.latencyMs else None,
             resp.Some? && resp.value.isError == 1, i)
  }

  /** `responseByRpcId.get(id) ?? null` */
  function Lookup(byId: map<RpcId, MessageRow>, id: RpcId): Option<MessageRow> {
    if id in byId then Some(byId[id]) else None
  }

  /** The first loop of `pairMessages`: every response is indexed by its id, a later
      one overwriting an earlier one. */
  method IndexResponses(parse: Parser, messages: seq<MessageRow>) returns (byId: map<RpcId, MessageRow>)
    ensures forall id :: Lookup(byId, id) == AnswerTo(parse, messages, id)
  {
    byId := map[];
    var i := 0;
    while i < |messages|
      invariant 0 <= i <= |messages|
      invariant forall id :: Lookup(byId, id) == AnswerTo(parse, messages[..i], id)
    {
      var m := messages[i];
      ghost var before := byId;
      if m.direction == ServerToClient {
        var p := Parse(parse, m.rawJson);
        if p.Some? && ResponseShaped(p.value) {
          byId := byId[p.value.id.value := m];
        }
      }
      forall id ensures Lookup(byId, id) == AnswerTo(parse, messages[..i + 1], id) {
        LastAnswerSnoc(parse, messages, i, id);
        if Answers(parse, m, id) {
          assert byId == before[id := m];
        } else {
          assert Lookup(byId, id) == Lookup(before, id);
        }
      }
      i := i + 1;
    }
    TakeAll(messages);
  }

  /** `pairMessages`: responses are indexed by id, then a call is emitted for every
      client-to-server row, numbered from 0. */
  method PairMessages(parse: Parser, messages: seq<MessageRow>) returns (calls: seq<ToolCall>)
    ensures |calls| == |Requests(messages)|
    ensures forall k :: 0 <= k < |calls| ==> calls[k] == CallOf(parse, messages, Requests(messages)[k], k)
  {
    var byId := IndexResponses(parse, messages);
    calls := [];
    var index := 0;
    var i := 0;
    while i < |messages|
      invariant 0 <= i <= |messages|
      invariant index == |calls| == |Requests(messages[..i])|
      invariant forall k :: 0 <= k < |calls| ==> calls[k] == CallOf(parse, messages, Requests(messages[..i])[k], k)
    {
      var m := messages[i];
      RequestsSnoc(messages, i);
      if m.direction == ClientToServer {
        var call := CallFor(parse, byId, m, index, messages);
        CallsSnoc(parse, messages, Requests(messages[..i]), calls, m);
        calls := calls + [call];
        index := index + 1;
      }
      i := i + 1;
    }
    TakeAll(messages);
  }

  /** The body of the second loop for one request row: its response is looked up by
      the request's id, if it has one. */
  method CallFor(parse: Parser, byId: map<RpcId, MessageRow>, m: MessageRow, index: nat, ghost messages: seq<MessageRow>)
    returns (call: ToolCall)
    requires forall id :: Lookup(byId, id) == AnswerTo(parse, messages, id)
    ensures call == CallOf(parse, messages, m, index)
  {
    var rpcId: Option<RpcId> := None;
    var p := Parse(parse, m.rawJson);
    if p.Some? {
      rpcId := p.value.id;
    }
    var resp := if rpcId.Some? then Lookup(byId, rpcId.value) else None;
    call := ToolCall("call-" + DecimalString(index), m.methodName.GetOr("unknown"), m, resp,
                     if resp.Some? then resp.value.latencyMs else None,
                     resp.Some? && resp.value.isError == 1, index);
  }

  lemma CallsSnoc(parse: Parser, ms: seq<MessageRow>, reqs: seq<MessageRow>, calls: seq<ToolCall>, m: MessageRow)
    requires |calls| == |reqs|
    requires forall k :: 0 <= k < |calls| ==> calls[k] == CallOf(parse, ms, reqs[k], k)
    ensures var calls', reqs' := calls + [CallOf(parse, ms, m, |calls|)], reqs + [m];
      forall k :: 0 <= k < |calls'| ==> calls'[k] == CallOf(parse, ms, reqs'[k], k)
  {
  }

  lemma LastAnswerSnoc(parse: Parser, ms: seq<MessageRow>, i: nat, id: RpcId)
    requires i < |ms|
    ensures LastAnswer(parse, ms[..i + 1], id) ==
      if Answers(parse, ms[i], id) then Some(i) else LastAnswer(parse, ms[..i], id)
  {
    assert ms[..i + 1][..i] == ms[..i];
  }

  lemma RequestsSnoc(ms: seq<MessageRow>, i: nat)
    requires i < |ms|
    ensures Requests(ms[..i + 1]) ==
      Requests(ms[..i]) + if ms[i].direction == ClientToServer then [ms[i]] else []
  {
    assert ms[..i + 1][..i] == ms[..i];
  }

  /** Pairing distributes over concatenation: the calls of a log are those of its first
      part followed by those of the rest, so every client-to-server row yields exactly
      one call, in log order. */
  lemma {:induction false} RequestsAppend(a: seq<MessageRow>, b: seq<MessageRow>)
    ensures Requests(a + b) == Requests(a) + Requests(b)
    decreases |b|
  {
    if b == [] {
      assert a + b == a;
    } else {
      var b' := b[..|b| - 1];
      var last := b[|b| - 1];
      assert (a + b)[..|a + b| - 1] == a + b';
      RequestsAppend(a, b');
      assert Requests(a + b) == Requests(a + b') + if last.direction == ClientToServer then [last] else [];
    }
  }

  /** A single row contributes one call exactly when it goes client to server. */
  lemma RequestsOfOne(m: MessageRow)
    ensures Requests([m]) == if m.direction == ClientToServer then [m] else []
  {
    assert [m][..0] == [];
  }

  /** Calls are told apart by their ids: `call-i` names the i-th call only. */
  lemma CallIdsDistinct(parse: Parser, ms: seq<MessageRow>, a: MessageRow, b: MessageRow, i: nat, j: nat)
    requires CallOf(parse, ms, a, i).id == CallOf(parse, ms, b, j).id
    ensures i == j
  {
    var p := "call-";
    assert (p + DecimalString(i))[|p|..] == DecimalString(i);
    assert (p + DecimalString(j))[|p|..] == DecimalString(j);
    DecimalInjective(i, j);
  }

  /** A paired response is a server-to-client row of the log that answers the request's
      id, and no later row answers it; a request stays unpaired only when it has no id
      or nothing answers it. */
  lemma CallResponseIsLastAnswer(parse: Parser, ms: seq<MessageRow>, req: MessageRow, i: nat)
    ensures var c := CallOf(parse, ms, req, i);
      && (c.response.Some? <==>
            RequestId(parse, req).Some? &&
            exists k :: 0 <= k < |ms| && Answers(parse, ms[k], RequestId(parse, req).value))
      && (c.response.Some? ==>
            exists k :: 0 <= k < |ms| && ms[k] == c.response.value &&
              Answers(parse, ms[k], RequestId(parse, req).value) &&
              forall j :: k < j < |ms| ==> !Answers(parse, ms[j], RequestId(parse, req).value))
  {
    var c := CallOf(parse, ms, req, i);
    if RequestId(parse, req).Some? {
      var id := RequestId(parse, req).value;
      var last := LastAnswer(parse, ms, id);
      if last.Some? {
        assert ms[last.value] == c.response.value;
      }
    }
  }

  /** Responses are never consumed: requests that carry the same id share one response. */
  lemma SharedIdSharesResponse(parse: Parser, ms: seq<MessageRow>, a: MessageRow, b: MessageRow, i: nat, j: nat)
    requires RequestId(parse, a) == RequestId(parse, b)
    ensures CallOf(parse, ms, a, i).response == CallOf(parse, ms, b, j).response
    ensures CallOf(parse, ms, a, i).isError == CallOf(parse, ms, b, j).isError
  {
  }

  /** A call is an error only through an erroring response, so an erroring call is never
      pending; its latency is the response's. */
  lemma ErrorNeedsResponse(parse: Parser, ms: seq<MessageRow>, req: MessageRow, i: nat)
    ensures var c := CallOf(parse, ms, req, i);
      && (c.isError <==> c.response.Some? && c.response.value.isError == 1)
      && (c.latencyMs.Some? ==> c.response.Some? && c.latencyMs == c.response.value.latencyMs)
      && (c.methodName == if req.methodName.Some? then req.methodName.value else "unknown")
  {
  }
}
