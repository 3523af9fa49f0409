/**
  `raw(query, params)` of the query methods: the query goes to the client
  unchanged and the response envelope, if any, is unwrapped.
 */
module RawQuery {
  import opened Wrappers
  import opened Values
  import opened Errors
  import opened Client

  /**
    The response shapes `raw` tells apart: a non-empty array whose first
    element carries a defined `result` yields that `result`; any other
    non-empty array yields its first element; anything else is returned as it
    came.
   */
  function Unwrap(response: Value): (r: Value)
    ensures (response.Arr? && |response.items| > 0 && Truthy(response.items[0])
             && !Member(response.items[0], "result").Undefined?) ==>
              r == Member(response.items[0], "result")
    ensures (response.Arr? && |response.items| > 0
             && (!Truthy(response.items[0]) || Member(response.items[0], "result").Undefined?)) ==>
              r == response.items[0]
    ensures !(response.Arr? && |response.items| > 0) ==> r == response
  {
    if response.Arr? && |response.items| > 0 then
      var first := response.items[0];
      if Truthy(first) && !Member(first, "result").Undefined? then Member(first, "result") else first
    else response
  }

  /** `raw(query, params)`: a client must be present; the query and the parameters reach it unchanged. */
  function Raw(client: Option<Handle>, query: string, params: Option<Object>, reply: Reply): (r: Run<Value>)
    ensures client.None? ==> r == Run([], Err(NotConnected))
    ensures client.Some? ==> r.calls == [Query(query, params)]
    ensures client.Some? && reply.Threw? ==> r.result == Err(ClientError(reply.message))
    ensures client.Some? && reply.Returned? ==> r.result == Ok(Unwrap(reply.value))
  {
    if client.None? then Run([], Err(NotConnected))
    else
      match reply
      case Threw(m) => Run([Query(query, params)], Err(ClientError(m)))
      case Returned(v) => Run([Query(query, params)], Ok(Unwrap(v)))
  }

  /** The envelope of one statement, `[{ result: x, ... }]`, unwraps to the statement's own result. */
  lemma UnwrapEnvelope(x: Value, rest: seq<Entry>, more: seq<Value>)
    requires !x.Undefined? && !Has(rest, "result")
    ensures Unwrap(Arr([Obj([Entry("result", x)] + rest)] + more)) == x
  {
    var es := [Entry("result", x)] + rest;
    assert forall i :: 1 <= i < |es| ==> es[i] == rest[i - 1];
    LookupUniform(es, "result", x);
    assert es[0].key == "result";
  }

  /**
    A list of statements that are row arrays, `[[row, ...], ...]`, unwraps to
    the rows of the first statement: an array never carries a `result` member.
   */
  lemma UnwrapStatementRows(rows: seq<Value>, more: seq<Value>)
    ensures Unwrap(Arr([Arr(rows)] + more)) == Arr(rows)
  {
    NoNamedMemberOnArrays(rows, "result");
  }

  /**
    Whichever of the two shapes the client answers with, the first element of
    the unwrapped value is the first row of the first statement.
   */
  lemma UnwrapThenIndexIsFirstRow(rows: seq<Value>, more: seq<Value>)
    requires |rows| > 0
    ensures At(Unwrap(Arr([Arr(rows)] + more)), 0) == rows[0]
    ensures At(Unwrap(Arr([Obj([Entry("result", Arr(rows))])] + more)), 0) == rows[0]
  {
    UnwrapStatementRows(rows, more);
    UnwrapEnvelope(Arr(rows), [], more);
  }
}
