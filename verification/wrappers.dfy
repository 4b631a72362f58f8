/**
 Failure-compatible wrappers used throughout the model.

 The program reports every fatal condition by throwing an exception that carries a
 message; the model returns `Err(message)` instead, and the `:-` operator propagates
 it exactly as an uncaught exception would unwind the caller.
 */
module Wrappers {

  /** An optional value. */
  datatype Option<+T> = None | Some(value: T) {

    predicate IsFailure() {
      None?
    }

    function PropagateFailure<U>(): Option<U>
      requires None?
    {
      None
    }

    function Extract(): T
      requires Some?
    {
      value
    }
  }

  /** Either a value or the message of the exception that the program throws. */
  datatype Result<+T> = Ok(value: T) | Err(msg: string) {

    predicate IsFailure() {
      Err?
    }

    function PropagateFailure<U>(): Result<U>
      requires Err?
    {
      Err(msg)
    }

    function Extract(): T
      requires Ok?
    {
      value
    }
  }

  /** A check without a value: `:- Need(cond, msg)` throws `msg` unless `cond` holds. */
  datatype Outcome = Pass | Fail(msg: string) {

    predicate IsFailure() {
      Fail?
    }

    function PropagateFailure<U>(): Result<U>
      requires Fail?
    {
      Err(msg)
    }
  }

  function Need(cond: bool, msg: string): (o: Outcome)
    ensures o.Pass? <==> cond
    ensures o.Fail? ==> o.msg == msg
  {
    if cond then Pass else Fail(msg)
  }

  /** Decodes every element with `decode`; one failure fails the whole sequence. */
  function DecodeEach<A, T>(xs: seq<A>, decode: A -> Option<T>): (r: Option<seq<T>>)
    ensures r.Some? ==> |r.value| == |xs|
    ensures r.Some? ==> forall i :: 0 <= i < |xs| ==> decode(xs[i]) == Some(r.value[i])
    ensures r.None? ==> exists i :: 0 <= i < |xs| && decode(xs[i]).None?
  {
    if xs == [] then Some([])
    else
      match decode(xs[0])
      case None => None
      case Some(y) =>
        match DecodeEach(xs[1..], decode)
        case None =>
          var i :| 0 <= i < |xs[1..]| && decode(xs[1..][i]).None?;
          assert decode(xs[1 + i]).None?;
          None
        case Some(rest) =>
          assert forall i :: 0 <= i < |xs[1..]| ==> decode(xs[1..][i]) == Some(rest[i]);
          Some([y] + rest)
  }

  /** Elements that each decode to the matching value decode together to all of the values. */
  lemma DecodeEachOf<A, T>(xs: seq<A>, ys: seq<T>, decode: A -> Option<T>)
    requires |xs| == |ys| && forall i :: 0 <= i < |xs| ==> decode(xs[i]) == Some(ys[i])
    ensures DecodeEach(xs, decode) == Some(ys)
  {
    var r := DecodeEach(xs, decode);
    assert r.Some?;
    assert forall i :: 0 <= i < |xs| ==> r.value[i] == ys[i];
    assert r.value == ys;
  }
}
