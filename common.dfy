/** Results and errors shared by every module of the report pipeline.

    The pipeline is written in a language whose failures are exceptions; here each
    raise becomes an `Err` carrying the exception kind and the text it is raised with. */
module Common {

  /** The exceptions the modelled code raises. `KeyError` carries the missing key as
      text; the other kinds carry the message the code (or Python's runtime) gives. */
  datatype Error =
    | TypeError(message: string)
    | KeyError(key: string)
    | IndexError
    | AttributeError(message: string)
    | ZeroDivisionError
    | StatisticsError
    | StopIteration

  datatype Option<+T> = None | Some(value: T)

  datatype Result<+T> = Ok(value: T) | Err(error: Error) {
    predicate IsFailure() { Err? }

    function PropagateFailure<U>(): Result<U>
      requires Err?
    {
      Err(error)
    }

    function Extract(): T
      requires Ok?
    {
      value
    }
  }

  /** A check that either passes or raises. */
  datatype Outcome = Pass | Fail(error: Error)

  /** `[f(x) for x in xs]`. */
  function MapSeq<A, B>(f: A -> B, xs: seq<A>): (ys: seq<B>)
    ensures |ys| == |xs|
    ensures forall i :: 0 <= i < |xs| ==> ys[i] == f(xs[i])
  {
    seq(|xs|, i requires 0 <= i < |xs| => f(xs[i]))
  }

  lemma MapSeqStep<A, B>(f: A -> B, xs: seq<A>, i: nat)
    requires i < |xs|
    ensures MapSeq(f, xs[..i + 1]) == MapSeq(f, xs[..i]) + [f(xs[i])]
  {
  }

  lemma MapSeqAppend<A, B>(f: A -> B, xs: seq<A>, x: A)
    ensures MapSeq(f, xs + [x]) == MapSeq(f, xs) + [f(x)]
  {
  }

  /** `h + (x + y)` is `(h + x) + y`, for named results. */
  lemma Regrouped<T>(h: seq<T>, whole: seq<T>, x: seq<T>, first: seq<T>, y: seq<T>)
    requires whole == h + (x + y) && first == h + x
    ensures whole == first + y
  {
  }

  predicate AllOk<T>(rs: seq<Result<T>>) {
    forall i :: 0 <= i < |rs| ==> rs[i].Ok?
  }

  /** The values of results that all succeeded. */
  function Unwrapped<T>(rs: seq<Result<T>>): (vs: seq<T>)
    requires AllOk(rs)
    ensures |vs| == |rs|
    ensures forall i :: 0 <= i < |rs| ==> vs[i] == rs[i].value
  {
    seq(|rs|, i requires 0 <= i < |rs| => rs[i].value)
  }

  lemma UnwrappedStep<T>(rs: seq<Result<T>>, x: T)
    requires AllOk(rs)
    ensures AllOk(rs + [Ok(x)])
    ensures Unwrapped(rs + [Ok(x)]) == Unwrapped(rs) + [x]
  {
  }
}
