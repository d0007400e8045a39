/** The life of one `Csrf` object as a sequence of calls on it.

    src/Csrf.php changes the private `$token` only in `setToken` (the constructor
    goes through `setToken` too); `getToken`, `validateToken` and the static
    `validateTokens` only read. `Run` replays a call sequence on the stored token,
    and the lemmas below say which token, and hence which guard behaviour, any
    sequence of calls leaves behind. */
module CsrfLifecycle {
  import opened FroqCsrf

  /** One call on a `Csrf` object after it was constructed. */
  datatype Call =
    | SetToken(value: string)
    | GetToken
    | ValidateToken(candidate: Option<string>)
    | ValidateTokens(first: Option<string>, second: Option<string>)

  /** The stored token after one call. */
  function After(stored: Option<string>, call: Call): Option<string> {
    match call
    case SetToken(s) => Some(s)
    case _ => stored
  }

  /** The stored token after a sequence of calls, applied first to last. */
  function Run(stored: Option<string>, calls: seq<Call>): Option<string>
    decreases |calls|
  {
    if calls == [] then stored else Run(After(stored, calls[0]), calls[1..])
  }

  /** Reference definition, read from the other end: the argument of the last
      `setToken` call, if there is one. */
  function LastSetToken(calls: seq<Call>): Option<string>
    decreases |calls|
  {
    if calls == [] then None
    else if calls[|calls| - 1].SetToken? then Some(calls[|calls| - 1].value)
    else LastSetToken(calls[..|calls| - 1])
  }

  /** Replaying one more call is one more step. */
  lemma {:induction false} RunSnoc(stored: Option<string>, calls: seq<Call>, call: Call)
    ensures Run(stored, calls + [call]) == After(Run(stored, calls), call)
    decreases |calls|
  {
    if calls != [] {
      assert (calls + [call])[1..] == calls[1..] + [call];
      RunSnoc(After(stored, calls[0]), calls[1..], call);
    }
  }

  /** The last `setToken` wins; with none, the token is the one the object started with. */
  lemma {:induction false} RunIsLastSetToken(stored: Option<string>, calls: seq<Call>)
    ensures Run(stored, calls) == if LastSetToken(calls).Some? then LastSetToken(calls) else stored
    decreases |calls|
  {
    if calls != [] {
      var n := |calls| - 1;
      assert calls == calls[..n] + [calls[n]];
      RunSnoc(stored, calls[..n], calls[n]);
      RunIsLastSetToken(stored, calls[..n]);
    }
  }

  /** There is no last `setToken` exactly when there is no `setToken` at all. */
  lemma {:induction false} LastSetTokenNone(calls: seq<Call>)
    ensures LastSetToken(calls) == None <==> forall i :: 0 <= i < |calls| ==> !calls[i].SetToken?
    decreases |calls|
  {
    if calls != [] {
      var n := |calls| - 1;
      LastSetTokenNone(calls[..n]);
      assert forall i :: 0 <= i < n ==> calls[..n][i] == calls[i];
    }
  }

  /** Queries are read-only: a sequence of calls without `setToken` leaves the
      stored token as it was. */
  lemma QueriesKeepToken(stored: Option<string>, calls: seq<Call>)
    requires forall i :: 0 <= i < |calls| ==> !calls[i].SetToken?
    ensures Run(stored, calls) == stored
  {
    LastSetTokenNone(calls);
    RunIsLastSetToken(stored, calls);
  }

  /** After constructing with `arg` and making `calls`, `validateToken` throws
      exactly when the last `setToken` stored "", or, with no `setToken` at all,
      when the constructor's argument was not truthy. Setting a token is thus not
      a one-way step out of the throwing state. */
  lemma GuardAfterCalls(arg: Option<string>, calls: seq<Call>, candidate: Option<string>)
    ensures Validate(Run(Initial(arg), calls), candidate).Err?
            <==> LastSetToken(calls) == Some("") || (LastSetToken(calls) == None && !IsTruthy(arg))
  {
    RunIsLastSetToken(Initial(arg), calls);
  }

  /** After constructing with `arg` and making `calls`, `validateToken(candidate)`
      returns true exactly when the candidate is truthy and identical to the last
      token passed to `setToken`, or to `arg` when no `setToken` was made. */
  lemma AcceptedAfterCalls(arg: Option<string>, calls: seq<Call>, candidate: Option<string>)
    ensures Validate(Run(Initial(arg), calls), candidate) == Ok(true)
            <==> IsTruthy(candidate) && candidate == (if LastSetToken(calls).Some? then LastSetToken(calls) else arg)
  {
    RunIsLastSetToken(Initial(arg), calls);
  }

  /** Makes one call on a real object; its effect on the token is `After`. */
  method Apply(g: Csrf, call: Call)
    modifies g
    ensures g.token == After(old(g.token), call)
  {
    match call
    case SetToken(s) =>
      g.SetToken(s);
    case GetToken =>
      var _ := g.GetToken();
    case ValidateToken(c) =>
      var _ := g.ValidateToken(c);
    case ValidateTokens(a, b) =>
      var _ := Csrf.ValidateTokens(a, b);
  }

  /** Makes a sequence of calls on a real object, first to last; the token it
      leaves is `Run` of the calls. */
  method Replay(g: Csrf, calls: seq<Call>)
    modifies g
    ensures g.token == Run(old(g.token), calls)
  {
    var i := 0;
    while i < |calls|
      invariant 0 <= i <= |calls|
      invariant g.token == Run(old(g.token), calls[..i])
    {
      RunSnoc(old(g.token), calls[..i], calls[i]);
      assert calls[..i + 1] == calls[..i] + [calls[i]];
      Apply(g, calls[i]);
      i := i + 1;
    }
    assert calls[..i] == calls;
  }
}
