/** Results of operations that may raise, and Python's None. */
module Outcomes {

  /** The Python exception classes the puzzle solvers can raise on bad input. */
  datatype Exception =
    | ValueError   // wrong number of values to unpack, int() of a non-number, max() of an empty list
    | TypeError    // subscripting None, an unexpected keyword argument
    | IndexError   // a list index out of range

  /** The value an operation returns, or the exception it raises. */
  datatype Result<T> = Ok(value: T) | Err(exc: Exception)

  /** An optional value: Python's `Optional[...]`, with None. */
  datatype Option<T> = None | Some(value: T)

  /**
    * The values of results computed one after the other, as a list
    * comprehension computes them: the exception of the first that failed, or
    * all of the values.
    */
  function AllOk<T>(rs: seq<Result<T>>): (r: Result<seq<T>>)
    ensures r.Ok? <==> forall k :: 0 <= k < |rs| ==> rs[k].Ok?
    ensures r.Ok? ==> |r.value| == |rs| && forall k :: 0 <= k < |rs| ==> rs[k] == Ok(r.value[k])
    ensures r.Err? ==> exists k :: 0 <= k < |rs| && rs[k] == Err(r.exc) && forall j :: 0 <= j < k ==> rs[j].Ok?
    decreases |rs|
  {
    if rs == [] then Ok([])
    else
      match rs[0]
      case Err(e) => Err(e)
      case Ok(v) =>
        var rest := AllOk(rs[1..]);
        assert forall k :: 0 <= k < |rs| - 1 ==> rs[1..][k] == rs[k + 1];
        match rest
        case Err(e) =>
          var k :| 0 <= k < |rs| - 1 && rs[1..][k] == Err(e) && forall j :: 0 <= j < k ==> rs[1..][j].Ok?;
          assert rs[k + 1] == Err(e);
          Err(e)
        case Ok(vs) => Ok([v] + vs)
  }

  /** One more successful result appends its value. */
  lemma AllOkAppend<T>(rs: seq<Result<T>>, v: T)
    requires AllOk(rs).Ok?
    ensures AllOk(rs + [Ok(v)]) == Ok(AllOk(rs).value + [v])
  {
    var all := rs + [Ok(v)];
    assert forall k :: 0 <= k < |rs| ==> all[k] == rs[k];
    assert forall k :: 0 <= k < |all| ==> all[k].Ok?;
    var vs, ws := AllOk(rs).value, AllOk(all).value;
    assert |ws| == |vs + [v]|;
    assert forall k :: 0 <= k < |ws| ==> ws[k] == (vs + [v])[k] by {
      forall k | 0 <= k < |ws|
        ensures ws[k] == (vs + [v])[k]
      {
        assert all[k] == Ok(ws[k]);
      }
    }
    assert ws == vs + [v];
  }
}
