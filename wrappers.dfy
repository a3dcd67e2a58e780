/** Failure-carrying return types: the model's stand-in for a null reference
    (Option) and for a thrown exception (Result, Outcome). */
module Wrappers {

  datatype Option<+T> = None | Some(value: T) {
    function GetOr(default: T): T {
      match this
      case Some(v) => v
      case None => default
    }
  }

  datatype Result<+T, +E> = Success(value: T) | Failure(error: E)

  datatype Outcome<+E> = Pass | Fail(error: E)

  /** The call ordinals at which the collaborators throw: queries to the SQL
      source, batch calls to the Azure table, updates of the state store. */
  datatype FaultPlan = FaultPlan(queries: set<nat>, batches: set<nat>, updates: set<nat>)

  /** The values of a sequence of results in order, or the error of the first failure. */
  function Collect<T, E>(rs: seq<Result<T, E>>): Result<seq<T>, E>
    decreases |rs|
  {
    if rs == [] then Success([])
    else
      var init := Collect(rs[..|rs| - 1]);
      if init.Failure? then init
      else
        var last := rs[|rs| - 1];
        if last.Failure? then Failure(last.error) else Success(init.value + [last.value])
  }

  /** One more success extends a successful collection by its value. */
  lemma CollectStep<T, E>(rs: seq<Result<T, E>>, i: nat, vs: seq<T>)
    requires i < |rs| && Collect(rs[..i]) == Success(vs) && rs[i].Success?
    ensures Collect(rs[..i + 1]) == Success(vs + [rs[i].value])
  {
    assert rs[..i + 1][..i] == rs[..i];
  }

  /** Collecting succeeds exactly when every result does, with their values in
      order; otherwise its error is that of the first failure. */
  lemma {:induction false} CollectSpec<T, E>(rs: seq<Result<T, E>>)
    ensures var c := Collect(rs);
      && (c.Success? <==> forall i :: 0 <= i < |rs| ==> rs[i].Success?)
      && (c.Success? ==> |c.value| == |rs| && forall i :: 0 <= i < |rs| ==> c.value[i] == rs[i].value)
      && (c.Failure? ==>
            exists i :: 0 <= i < |rs| && rs[i] == Failure(c.error) && forall j :: 0 <= j < i ==> rs[j].Success?)
    decreases |rs|
  {
    if rs != [] {
      var n := |rs| - 1;
      var init := rs[..n];
      CollectSpec(init);
      assert forall i :: 0 <= i < n ==> init[i] == rs[i];
    }
  }

  /** The first failure of a prefix is the first failure of the whole. */
  lemma {:induction false} CollectPrefixFailure<T, E>(rs: seq<Result<T, E>>, n: nat)
    requires n <= |rs|
    requires Collect(rs[..n]).Failure?
    ensures Collect(rs) == Collect(rs[..n])
    decreases |rs| - n
  {
    if n < |rs| {
      var init := rs[..|rs| - 1];
      assert init[..n] == rs[..n];
      CollectPrefixFailure(init, n);
    } else {
      assert rs[..n] == rs;
    }
  }
}
