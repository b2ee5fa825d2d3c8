/** Outcome types shared by the whole model: an optional value, and a value or
    an error message (the model's stand-in for a raised Ruby exception). */
module Wrappers {

  datatype Option<+T> = None | Some(value: T) {
    function GetOr(default: T): T {
      match this
      case Some(v) => v
      case None => default
    }
  }

  datatype Result<+T> = Ok(value: T) | Err(error: string) {
    function ToOption(): Option<T> {
      match this
      case Ok(v) => Some(v)
      case Err(_) => None
    }
  }

  /** `items.map { |x| f(x) }` where `f` may raise: the mapped list, or the
      error of the first item that fails. */
  function MapAll<T, U>(items: seq<T>, f: T -> Result<U>): (r: Result<seq<U>>)
    ensures r.Ok? ==> |r.value| == |items|
  {
    if items == [] then Ok([])
    else
      match f(items[0])
      case Err(e) => Err(e)
      case Ok(u) =>
        match MapAll(items[1..], f)
        case Err(e) => Err(e)
        case Ok(rest) => Ok([u] + rest)
  }

  /** The index of the first item that fails, or `|items|` when none does. */
  function FirstFailure<T, U>(items: seq<T>, f: T -> Result<U>): (n: nat)
    ensures n <= |items|
    ensures forall j :: 0 <= j < n ==> f(items[j]).Ok?
    ensures n < |items| ==> f(items[n]).Err?
  {
    if items == [] then 0
    else if f(items[0]).Err? then 0
    else
      var n := FirstFailure(items[1..], f);
      assert forall j :: 1 <= j < n + 1 ==> items[j] == items[1..][j - 1];
      n + 1
  }

  lemma {:induction false} MapAllSpec<T, U>(items: seq<T>, f: T -> Result<U>)
    ensures MapAll(items, f).Ok? <==> FirstFailure(items, f) == |items|
    ensures MapAll(items, f).Ok? ==> forall i :: 0 <= i < |items| ==> MapAll(items, f).value[i] == f(items[i]).value
    ensures MapAll(items, f).Err? ==> MapAll(items, f) == Err(f(items[FirstFailure(items, f)]).error)
    decreases |items|
  {
    if items != [] && f(items[0]).Ok? {
      MapAllSpec(items[1..], f);
      assert forall i :: 1 <= i < |items| ==> items[i] == items[1..][i - 1];
    }
  }
}
