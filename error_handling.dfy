/** The value-or-error algebra of `ErrorHandling.cs`: an `Attempt` (an action that may have
    failed) and a `ValueOrError` (a value or the errors met on the way), with the combinators
    that chain fallbacks and collect every error, newest first.

    A call to a getter, an action or a transform is its outcome: a `Result` that is either the
    returned value or the thrown exception. Each combinator reports whether it made that call
    and which exceptions it handed to the optional `onFailure` callback. */
module ErrorHandlings {
  import opened Wrappers

  /** `Attempt(Exception[]? Error = null)` */
  datatype Attempt = Attempt(error: Option<seq<Exception>>)

  /** `ValueOrError<T>(T? Value = default, Exception[]? Error = null)` */
  datatype ValueOrError<T> = ValueOrError(value: Option<T>, error: Option<seq<Exception>>)

  /** What a combinator returned, whether it invoked the getter (or action, or transform), and
      the exceptions it passed to `onFailure`. */
  datatype Call<R> = Call(result: R, invoked: bool, reported: seq<Exception>)

  /** The implicit conversion to `bool`: no error array. */
  predicate Succeeded(a: Attempt) {
    a.error.None?
  }

  predicate HasValue<T>(v: ValueOrError<T>) {
    v.error.None?
  }

  /** The implicit conversions into `ValueOrError`. */
  function FromValue<T>(v: T): (r: ValueOrError<T>)
    ensures HasValue(r) && r.value == Some(v)
  {
    ValueOrError(Some(v), None)
  }

  function FromErrors<T>(e: Option<seq<Exception>>): (r: ValueOrError<T>)
    ensures HasValue(r) <==> e.None?
    ensures r.value == None && r.error == e
  {
    ValueOrError(None, e)
  }

  function FromException<T>(e: Exception): (r: ValueOrError<T>)
    ensures !HasValue(r) && r.error == Some([e])
  {
    ValueOrError(None, Some([e]))
  }

  /** The implicit conversion to `Exception?`: the first error, `null` on success; an empty
      error array makes the indexing throw. */
  function FirstError(e: Option<seq<Exception>>): (r: Result<Option<Exception>>)
    ensures e.None? ==> r == Ok(None)
    ensures e.Some? && |e.value| > 0 ==> r == Ok(Some(e.value[0]))
    ensures r.Err? <==> e.Some? && |e.value| == 0
  {
    match e
    case None => Ok(None)
    case Some(es) => if |es| == 0 then Err(Exception("IndexOutOfRangeException", "")) else Ok(Some(es[0]))
  }

  /** `previousErrors.Prepend(e)`: the new error first. */
  function Prepend(e: Exception, previous: Option<seq<Exception>>): seq<Exception> {
    [e] + previous.GetOr([])
  }

  /** `TryGet(getter, onFailure, previousErrors)`: the getter's value, or its exception followed by
      the earlier ones. */
  function TryGet<T>(getter: Result<T>, hasOnFailure: bool, previous: Option<seq<Exception>>): Call<ValueOrError<T>> {
    match getter
    case Ok(v) => Call(FromValue(v), true, [])
    case Err(e) => Call(FromErrors(Some(Prepend(e, previous))), true, if hasOnFailure then [e] else [])
  }

  /** `Transform(self, transform)`: the errors pass through untouched; the transform sees the
      value only on success. */
  function Transform<T, R>(self: ValueOrError<T>, transform: Option<T> -> Result<R>): Call<ValueOrError<R>> {
    if !HasValue(self) then Call(FromErrors(self.error), false, [])
    else TryGet(transform(self.value), false, None)
  }

  /** `Else(self, getter, onFailure)` */
  function Else<T>(self: ValueOrError<T>, getter: Result<T>, hasOnFailure: bool): Call<ValueOrError<T>> {
    if HasValue(self) then Call(self, false, [])
    else TryGet(getter, hasOnFailure, self.error)
  }

  /** `Else(self, condition, getter, onFailure)` */
  function ElseIf<T>(self: ValueOrError<T>, condition: bool, getter: Result<T>, hasOnFailure: bool): Call<ValueOrError<T>> {
    if HasValue(self) || !condition then Call(self, false, [])
    else TryGet(getter, hasOnFailure, self.error)
  }

  /** The exception `Get` and `Assume` throw for an error array: the only error itself, or an
      aggregate of all of them (with the message when one is given). */
  function Raised(errors: seq<Exception>, message: Option<string>): Exception {
    if |errors| == 1 then errors[0] else AggregateException(message, errors)
  }

  /** `Get(self, message)`: the value, or the exception that is thrown. */
  function Get<T>(self: ValueOrError<T>, message: Option<string>): Result<Option<T>> {
    if HasValue(self) then Ok(self.value) else Err(Raised(self.error.value, message))
  }

  /** `Try(action, onFailure, previousErrors)`; the action's outcome is `None` when it returns. */
  function Try(action: Option<Exception>, hasOnFailure: bool, previous: Option<seq<Exception>>): Call<Attempt> {
    match action
    case None => Call(Attempt(None), true, [])
    case Some(e) => Call(Attempt(Some(Prepend(e, previous))), true, if hasOnFailure then [e] else [])
  }

  /** `Else(self, action, onFailure)` on an attempt. */
  function AttemptElse(self: Attempt, action: Option<Exception>, hasOnFailure: bool): Call<Attempt> {
    if Succeeded(self) then Call(self, false, []) else Try(action, hasOnFailure, self.error)
  }

  /** `Else(self, condition, action, onFailure)` on an attempt. */
  function AttemptElseIf(self: Attempt, condition: bool, action: Option<Exception>, hasOnFailure: bool): Call<Attempt> {
    if Succeeded(self) || !condition then Call(self, false, []) else Try(action, hasOnFailure, self.error)
  }

  /** `Assume(self, message)`: `None` when it returns, else the exception thrown. */
  function Assume(self: Attempt, message: Option<string>): Option<Exception> {
    if Succeeded(self) then None else Some(Raised(self.error.value, message))
  }

  // ---- Properties --------------------------------------------------------------------------

  /** A throwing getter yields exactly its exception in front of the earlier ones, and hands it
      to `onFailure` when there is one; a returning getter yields its value. */
  lemma TryGetOutcome<T>(getter: Result<T>, hasOnFailure: bool, previous: Option<seq<Exception>>)
    ensures var c := TryGet(getter, hasOnFailure, previous);
      c.invoked
      && (getter.Ok? ==> HasValue(c.result) && c.result.value == Some(getter.value) && c.reported == [])
      && (getter.Err? ==> !HasValue(c.result) && c.result.error == Some([getter.error] + previous.GetOr([]))
                          && c.reported == (if hasOnFailure then [getter.error] else []))
  {
  }

  /** On a value, `Else` returns it unchanged without calling the getter; on an error it calls the
      getter, and a failing getter adds exactly one error, the newest first. */
  lemma ElseOutcome<T>(self: ValueOrError<T>, getter: Result<T>, hasOnFailure: bool)
    ensures var c := Else(self, getter, hasOnFailure);
      (HasValue(self) ==> c.result == self && !c.invoked && c.reported == [])
      && (!HasValue(self) ==> c.invoked)
      && (!HasValue(self) && getter.Err? ==>
            c.result.error == Some([getter.error] + self.error.value)
            && |c.result.error.value| == |self.error.value| + 1)
      && (!HasValue(self) && getter.Ok? ==> HasValue(c.result) && c.result.value == Some(getter.value))
  {
  }

  /** With the condition false the conditional `Else` is the identity; with it true it is `Else`. */
  lemma ElseIfOutcome<T>(self: ValueOrError<T>, condition: bool, getter: Result<T>, hasOnFailure: bool)
    ensures !condition ==> ElseIf(self, condition, getter, hasOnFailure) == Call(self, false, [])
    ensures condition ==> ElseIf(self, condition, getter, hasOnFailure) == Else(self, getter, hasOnFailure)
  {
  }

  /** `Transform` of an error keeps exactly its errors and never calls the transform; of a value
      it applies the transform, whose exception starts a fresh error list. */
  lemma TransformOutcome<T, R>(self: ValueOrError<T>, transform: Option<T> -> Result<R>)
    ensures var c := Transform(self, transform);
      (!HasValue(self) ==> c.result.error == self.error && c.result.value == None && !c.invoked)
      && (HasValue(self) ==> c.invoked && (transform(self.value).Err? ==> c.result.error == Some([transform(self.value).error])))
  {
    if HasValue(self) && transform(self.value).Err? {
      var e := transform(self.value).error;
      assert Prepend(e, None) == [e] + [] == [e];
    }
  }

  /** `Get`: the value on success; the single error itself; otherwise an aggregate of all errors. */
  lemma GetOutcome<T>(self: ValueOrError<T>, message: Option<string>)
    ensures HasValue(self) <==> Get(self, message).Ok?
    ensures HasValue(self) ==> Get(self, message) == Ok(self.value)
    ensures !HasValue(self) && |self.error.value| == 1 ==> Get(self, message) == Err(self.error.value[0])
    ensures !HasValue(self) && |self.error.value| != 1 ==> Get(self, message) == Err(AggregateException(message, self.error.value))
  {
  }

  /** `Assume` behaves as `Get` does on the same errors. */
  lemma AssumeAgreesWithGet<T>(self: Attempt, message: Option<string>)
    ensures var v: ValueOrError<T> := FromErrors(self.error);
      Assume(self, message).None? <==> Get(v, message).Ok?
    ensures Assume(self, message).Some? ==> Get(FromErrors<T>(self.error), message) == Err(Assume(self, message).value)
  {
  }

  /** An attempt's `Else` and `Try` mirror those of `ValueOrError`: a failing action adds one error,
      newest first; a succeeded attempt is returned as is. */
  lemma AttemptElseOutcome(self: Attempt, action: Option<Exception>, hasOnFailure: bool)
    ensures var c := AttemptElse(self, action, hasOnFailure);
      (Succeeded(self) ==> c.result == self && !c.invoked)
      && (!Succeeded(self) && action.Some? ==> c.result.error == Some([action.value] + self.error.value) && c.invoked)
      && (!Succeeded(self) && action.None? ==> Succeeded(c.result))
  {
  }

  lemma AttemptElseIfOutcome(self: Attempt, condition: bool, action: Option<Exception>, hasOnFailure: bool)
    ensures !condition ==> AttemptElseIf(self, condition, action, hasOnFailure) == Call(self, false, [])
    ensures condition ==> AttemptElseIf(self, condition, action, hasOnFailure) == AttemptElse(self, action, hasOnFailure)
  {
  }

  // ---- Chains of fallbacks -------------------------------------------------------------------

  /** `self.Else(g0).Else(g1)...`: a chain of fallbacks tried in order. */
  function ElseChain<T>(self: ValueOrError<T>, getters: seq<Result<T>>): ValueOrError<T>
    decreases |getters|
  {
    if |getters| == 0 then self
    else ElseChain(Else(self, getters[0], false).result, getters[1..])
  }

  function Reverse<T>(xs: seq<T>): (r: seq<T>)
    ensures |r| == |xs| && forall k :: 0 <= k < |xs| ==> r[k] == xs[|xs| - 1 - k]
  {
    if |xs| == 0 then [] else Reverse(xs[1..]) + [xs[0]]
  }

  /** When every fallback throws, the chain holds every exception, the last one first, in front of
      the errors it started with. */
  lemma {:induction false} ElseChainAllFail<T>(self: ValueOrError<T>, getters: seq<Result<T>>)
    requires !HasValue(self)
    requires forall k :: 0 <= k < |getters| ==> getters[k].Err?
    ensures var r := ElseChain(self, getters);
      !HasValue(r) && r.error.value == Reverse(seq(|getters|, k requires 0 <= k < |getters| => getters[k].error)) + self.error.value
    decreases |getters|
  {
    var errs := seq(|getters|, k requires 0 <= k < |getters| => getters[k].error);
    if |getters| == 0 {
      assert errs == [];
    } else {
      var next := Else(self, getters[0], false).result;
      ElseChainAllFail(next, getters[1..]);
      var rest := seq(|getters[1..]|, k requires 0 <= k < |getters[1..]| => getters[1..][k].error);
      assert errs == [getters[0].error] + rest;
      assert Reverse(errs) == Reverse(rest) + [getters[0].error];
    }
  }

  /** The chain settles on the first fallback that returns, and no later one matters. */
  lemma {:induction false} ElseChainFirstSuccess<T>(self: ValueOrError<T>, getters: seq<Result<T>>, i: nat)
    requires !HasValue(self) && i < |getters| && getters[i].Ok?
    requires forall k :: 0 <= k < i ==> getters[k].Err?
    ensures ElseChain(self, getters) == FromValue(getters[i].value)
    decreases |getters|
  {
    if i > 0 {
      ElseChainFirstSuccess(Else(self, getters[0], false).result, getters[1..], i - 1);
    } else {
      ElseChainKeepsValue(FromValue(getters[0].value), getters[1..]);
    }
  }

  /** Once there is a value, the rest of the chain leaves it alone. */
  lemma {:induction false} ElseChainKeepsValue<T>(self: ValueOrError<T>, getters: seq<Result<T>>)
    requires HasValue(self)
    ensures ElseChain(self, getters) == self
    decreases |getters|
  {
    if |getters| > 0 {
      ElseChainKeepsValue(self, getters[1..]);
    }
  }
}
