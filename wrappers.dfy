/** Option and Result: the absent/present and success/failure values the model returns in place of
    JavaScript's `undefined` and thrown errors; and the loop that stops at the first throw. */
module Wrappers {

  datatype Option<+T> = None | Some(value: T)

  datatype Result<+T, +E> = Ok(value: T) | Err(error: E)

  /** A loop whose iteration i either yields `rs[i]` or throws: the values in order, or the error
      of the first iteration that throws. */
  function Collect<T, E>(rs: seq<Result<T, E>>): Result<seq<T>, E> {
    if rs == [] then Ok([])
    else
      var prefix := Collect(rs[..|rs| - 1]);
      if prefix.Err? then prefix
      else if rs[|rs| - 1].Err? then Err(rs[|rs| - 1].error)
      else Ok(prefix.value + [rs[|rs| - 1].value])
  }

  /** The loop completes exactly when no iteration throws. */
  lemma {:induction false} CollectOkIff<T, E>(rs: seq<Result<T, E>>)
    ensures Collect(rs).Ok? <==> forall i :: 0 <= i < |rs| ==> rs[i].Ok?
  {
    if rs != [] {
      var n := |rs| - 1;
      CollectOkIff(rs[..n]);
      assert forall i :: 0 <= i < n ==> rs[..n][i] == rs[i];
    }
  }

  /** A completed loop has one value per iteration, in order. */
  lemma {:induction false} CollectOk<T, E>(rs: seq<Result<T, E>>)
    requires Collect(rs).Ok?
    ensures |Collect(rs).value| == |rs|
    ensures forall i :: 0 <= i < |rs| ==> rs[i] == Ok(Collect(rs).value[i])
  {
    if rs != [] {
      var n := |rs| - 1;
      CollectOk(rs[..n]);
      var vs := Collect(rs).value;
      assert vs == Collect(rs[..n]).value + [rs[n].value];
      forall i | 0 <= i < |rs| ensures rs[i] == Ok(vs[i]) {
        if i < n {
          assert rs[..n][i] == rs[i];
        }
      }
    }
  }

  /** An aborted loop throws the error of its first throwing iteration. */
  lemma {:induction false} CollectErr<T, E>(rs: seq<Result<T, E>>)
    requires Collect(rs).Err?
    ensures exists i :: 0 <= i < |rs| && rs[i] == Err(Collect(rs).error) && forall j :: 0 <= j < i ==> rs[j].Ok?
  {
    var n := |rs| - 1;
    var prefix := Collect(rs[..n]);
    assert forall i :: 0 <= i < n ==> rs[..n][i] == rs[i];
    if prefix.Err? {
      CollectErr(rs[..n]);
      var i :| 0 <= i < n && rs[..n][i] == Err(prefix.error) && forall j :: 0 <= j < i ==> rs[..n][j].Ok?;
      assert rs[i] == Err(Collect(rs).error);
    } else {
      CollectOkIff(rs[..n]);
      assert rs[n] == Err(Collect(rs).error);
    }
  }

  /** One more completing iteration extends a completed prefix by its value. */
  lemma CollectSnoc<T, E>(rs: seq<Result<T, E>>, i: nat, vs: seq<T>, v: T)
    requires i < |rs| && Collect(rs[..i]) == Ok(vs) && rs[i] == Ok(v)
    ensures Collect(rs[..i + 1]) == Ok(vs + [v])
  {
    assert rs[..i + 1][..i] == rs[..i];
  }

  /** When every iteration before i completes and iteration i throws, the loop throws its error. */
  lemma {:induction false} CollectErrAt<T, E>(rs: seq<Result<T, E>>, i: nat)
    requires i < |rs| && rs[i].Err?
    requires forall j :: 0 <= j < i ==> rs[j].Ok?
    ensures Collect(rs) == Err(rs[i].error)
    decreases |rs|
  {
    var n := |rs| - 1;
    assert forall k :: 0 <= k < n ==> rs[..n][k] == rs[k];
    if i < n {
      CollectErrAt(rs[..n], i);
    } else {
      CollectOkIff(rs[..n]);
    }
  }
}
