/**
  Error aggregation of the derive macro (macros/src/util.rs). A `syn::Error`
  is modelled by its messages in order; `combine` appends the other error's
  messages. Spans are not modelled.
*/
module MacroUtil {
  import opened Wrappers

  /** `syn::Error`: one or more messages. */
  datatype Error = Error(messages: seq<string>)

  /** `Error::combine`: the other error's messages follow this one's. */
  function Combine(e: Error, other: Error): (r: Error)
    ensures |r.messages| == |e.messages| + |other.messages|
    ensures r.messages[..|e.messages|] == e.messages && r.messages[|e.messages|..] == other.messages
  {
    Error(e.messages + other.messages)
  }

  /** `results.iter().any(|it| it.is_err())`. */
  predicate AnyErr<T>(results: seq<Result<T, Error>>)
  {
    exists i :: 0 <= i < |results| && results[i].Err?
  }

  /** `filter_map(Result::err)`: the errors, in input order. */
  function Errors<T>(results: seq<Result<T, Error>>): (r: seq<Error>)
    ensures |r| == 0 <==> !AnyErr(results)
    ensures |r| <= |results|
  {
    if results == [] then []
    else
      var front := Errors(results[..|results| - 1]);
      assert forall i :: 0 <= i < |results| - 1 ==> results[..|results| - 1][i] == results[i];
      match results[|results| - 1]
      case Ok(_) => front
      case Err(e) => front + [e]
  }

  /** `filter_map(Result::ok)`: the values, in input order. */
  function Values<T>(results: seq<Result<T, Error>>): (r: seq<T>)
    ensures !AnyErr(results) ==> |r| == |results| && forall i :: 0 <= i < |r| ==> r[i] == results[i].value
  {
    if results == [] then []
    else
      var front := Values(results[..|results| - 1]);
      assert forall i :: 0 <= i < |results| - 1 ==> results[..|results| - 1][i] == results[i];
      match results[|results| - 1]
      case Ok(v) => front + [v]
      case Err(_) => front
  }

  /** The `for` loop of the error branch: `result` combined with each later error in turn. */
  function CombineAll(result: Error, others: seq<Error>): (r: Error)
    ensures |r.messages| >= |result.messages| && r.messages[..|result.messages|] == result.messages
  {
    if others == [] then result
    else Combine(CombineAll(result, others[..|others| - 1]), others[|others| - 1])
  }

  /** All messages of several errors, in order. */
  function Messages(errors: seq<Error>): seq<string>
  {
    if errors == [] then [] else errors[0].messages + Messages(errors[1..])
  }

  /** Messages of a concatenation are the concatenated messages. */
  lemma {:induction false} MessagesAppend(a: seq<Error>, b: seq<Error>)
    ensures Messages(a + b) == Messages(a) + Messages(b)
  {
    if a != [] {
      MessagesAppend(a[1..], b);
      assert (a + b)[1..] == a[1..] + b;
    } else {
      assert a + b == b;
    }
  }

  /** Folding `combine` over the later errors keeps every message in order. */
  lemma {:induction false} CombineAllMessages(result: Error, others: seq<Error>)
    ensures CombineAll(result, others).messages == result.messages + Messages(others)
  {
    if others != [] {
      var front := others[..|others| - 1];
      CombineAllMessages(result, front);
      assert others == front + [others[|others| - 1]];
      MessagesAppend(front, [others[|others| - 1]]);
    }
  }

  /**
    `flatten_result_vec`: `Ok` with every value, in input order, exactly when
    no element is an error; otherwise the first error combined with every
    later one in input order, carrying all their messages.
  */
  function Flatten<T>(results: seq<Result<T, Error>>): (r: Result<seq<T>, Error>)
    ensures r.Ok? <==> forall i :: 0 <= i < |results| ==> results[i].Ok?
    ensures r.Ok? ==> |r.value| == |results| && forall i :: 0 <= i < |results| ==> r.value[i] == results[i].value
    ensures r.Err? ==> r.error.messages == Messages(Errors(results))
  {
    if AnyErr(results) then
      var errors := Errors(results);
      CombineAllMessages(errors[0], errors[1..]);
      assert errors == [errors[0]] + errors[1..];
      Err(CombineAll(errors[0], errors[1..]))
    else Ok(Values(results))
  }

  /**
    Successful values are discarded as soon as one error is present: two
    inputs with the same errors in the same order give the same result,
    whatever values they hold.
  */
  lemma FlattenIgnoresValuesOnError<T>(a: seq<Result<T, Error>>, b: seq<Result<T, Error>>)
    requires AnyErr(a) && Errors(a) == Errors(b)
    ensures Flatten(a) == Flatten(b)
  {
  }

  /**
    `flatten_result_vec` as written: test for an error, collect the errors,
    pop the first (the `unwrap` cannot fail: `errors` is not empty on that
    branch) and fold the rest into it with `combine`.
  */
  method FlattenResultVec<T>(results: seq<Result<T, Error>>) returns (r: Result<seq<T>, Error>)
    ensures r == Flatten(results)
  {
    if AnyErr(results) {
      var errors := Errors(results);
      var result := errors[0];
      var rest := errors[1..];
      for i := 0 to |rest|
        invariant result == CombineAll(errors[0], rest[..i])
      {
        assert rest[..i + 1][..i] == rest[..i];
        result := Combine(result, rest[i]);
      }
      assert rest[..|rest|] == rest;
      r := Err(result);
    } else {
      r := Ok(Values(results));
    }
  }
}
