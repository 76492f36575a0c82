/** Option and Result, the two failure-carrying shapes the model uses for
    JavaScript's `undefined` and for thrown exceptions. */
module Wrappers {

  datatype Option<+T> = None | Some(value: T) {
    /** `value ?? default` */
    function GetOr(default: T): T {
      match this
      case Some(v) => v
      case None => default
    }
  }

  datatype Result<+R, +E> = Success(value: R) | Failure(error: E)

  /** Two steps one after the other, each producing a list: the first
      failure aborts, otherwise the lists are concatenated. */
  function Then<T, E>(first: Result<seq<T>, E>, rest: Result<seq<T>, E>): (r: Result<seq<T>, E>)
    ensures r.Failure? <==> first.Failure? || rest.Failure?
    ensures first.Failure? ==> r == first
    ensures first.Success? && rest.Failure? ==> r == rest
    ensures r.Success? ==> r.value == first.value + rest.value
  {
    if first.Failure? then first
    else if rest.Failure? then rest
    else Success(first.value + rest.value)
  }

  lemma ThenAssociative<T, E>(a: Result<seq<T>, E>, b: Result<seq<T>, E>, c: Result<seq<T>, E>)
    ensures Then(Then(a, b), c) == Then(a, Then(b, c))
  {
    if a.Success? && b.Success? && c.Success? {
      assert (a.value + b.value) + c.value == a.value + (b.value + c.value);
    }
  }

  /** An empty success on either side changes nothing. */
  lemma ThenUnit<T, E>(a: Result<seq<T>, E>)
    ensures Then(Success([]), a) == a && Then(a, Success([])) == a
  {
    if a.Success? {
      assert [] + a.value == a.value && a.value + [] == a.value;
    }
  }
}
