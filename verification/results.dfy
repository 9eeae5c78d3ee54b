/** Success-or-error values and optional values shared by every module of the model.
    The server's tools answer with a dictionary whose `success` flag is either true
    (and the payload is present) or false (and an `error` is present); `Result`
    is that shape. `Option` stands for an XML attribute that may be absent. */
module Results {

  datatype Option<+T> = None | Some(value: T)

  datatype Result<+T, +E> = Success(value: T) | Failure(error: E)

  /** A loop that processes items in order and raises at the first bad one:
      all values when every step succeeded, otherwise the first failure. */
  function CollectAll<T, E>(rs: seq<Result<T, E>>): (r: Result<seq<T>, E>)
    ensures r.Success? <==> forall k :: 0 <= k < |rs| ==> rs[k].Success?
    ensures r.Success? ==> |r.value| == |rs| && forall k :: 0 <= k < |rs| ==> r.value[k] == rs[k].value
    ensures r.Failure? ==> exists k :: 0 <= k < |rs| && rs[k].Failure? && rs[k].error == r.error
                                       && forall j :: 0 <= j < k ==> rs[j].Success?
  {
    if |rs| == 0 then Success([])
    else if rs[0].Failure? then Failure(rs[0].error)
    else
      var rest := CollectAll(rs[1..]);
      assert forall k :: 1 <= k < |rs| ==> rs[k] == rs[1..][k - 1];
      if rest.Failure? then Failure(rest.error)
      else
        var vs := [rs[0].value] + rest.value;
        assert forall k :: 1 <= k < |rs| ==> vs[k] == rest.value[k - 1];
        Success(vs)
  }
}
