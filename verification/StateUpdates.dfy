/**
 The change log of a session: for every touched key the value before and after. Its meaning
 is `IsDiff`: the log lists exactly the keys on which two views of the state differ.
 */
module StateUpdatesModule {
  import opened Wrappers
  import opened SaltTypes

  datatype Transition = Transition(before: Option<SaltValue>, after: Option<SaltValue>)

  type Log = map<SaltKey, Transition>

  /** A view gives every key its value. */
  type View = SaltKey -> Option<SaltValue>

  /** The log is the exact difference of two views, with no entry for an unchanged key. */
  ghost predicate IsDiff(data: Log, before: View, after: View) {
    && (forall key :: key in data <==> before(key) != after(key))
    && (forall key :: key in data ==> data[key] == Transition(before(key), after(key)))
  }

  ghost predicate SameView(v: View, w: View) {
    forall key :: v(key) == w(key)
  }

  ghost function Write(v: View, key: SaltKey, val: Option<SaltValue>): View {
    k => if k == key then val else v(k)
  }

  /** What a store that showed `v` shows once the log is applied to it. */
  ghost function Apply(data: Log, v: View): View {
    k => if k in data then data[k].after else v(k)
  }

  predicate Chains(data: Log, key: SaltKey, before: Option<SaltValue>) {
    key in data ==> data[key].after == before
  }

  function Added(data: Log, key: SaltKey, before: Option<SaltValue>, after: Option<SaltValue>): Log {
    if key in data then
      if data[key].before == after then data - {key} else data[key := Transition(data[key].before, after)]
    else if before != after then data[key := Transition(before, after)]
    else data
  }

  /** Adding the current transition of a key keeps the log an exact difference. */
  lemma AddKeepsDiff(data: Log, v0: View, v1: View, key: SaltKey, after: Option<SaltValue>)
    requires IsDiff(data, v0, v1)
    ensures Chains(data, key, v1(key))
    ensures IsDiff(Added(data, key, v1(key), after), v0, Write(v1, key, after))
  {
  }

  lemma EmptyDiff(v: View)
    ensures IsDiff(map[], v, v)
  {
  }

  lemma WriteSame(data: Log, v0: View, v1: View, key: SaltKey)
    requires IsDiff(data, v0, v1)
    ensures IsDiff(data, v0, Write(v1, key, v1(key)))
  {
  }

  lemma DiffOfSame(data: Log, v0: View, v1: View, w0: View, w1: View)
    requires IsDiff(data, v0, v1) && SameView(v0, w0) && SameView(v1, w1)
    ensures IsDiff(data, w0, w1)
  {
  }

  /** Two views have one difference. */
  lemma DiffUnique(d1: Log, d2: Log, v0: View, v1: View)
    requires IsDiff(d1, v0, v1) && IsDiff(d2, v0, v1)
    ensures d1 == d2
  {
    assert d1.Keys == d2.Keys;
  }

  /** The log leads from the first view to the second. */
  lemma ApplyReaches(data: Log, v0: View, v1: View)
    requires IsDiff(data, v0, v1)
    ensures SameView(Apply(data, v0), v1)
  {
  }

  // ---------------------------------------------------------------- merge

  ghost predicate AllChain(data: Log, other: Log) {
    forall key :: key in other ==> Chains(data, key, other[key].before)
  }

  /** The transition of one key after a merge; `None` when nothing is recorded for it. */
  function MergedAt(data: Log, other: Log, key: SaltKey): Option<Transition> {
    if key !in other then
      if key in data then Some(data[key]) else None
    else
      var before := if key in data then data[key].before else other[key].before;
      if before == other[key].after then None else Some(Transition(before, other[key].after))
  }

  ghost predicate IsMerge(data: Log, other: Log, merged: Log) {
    forall key :: if key in merged then MergedAt(data, other, key) == Some(merged[key]) else MergedAt(data, other, key) == None
  }

  /** Merging two consecutive differences always chains, and gives the difference end to end. */
  lemma MergeComposes(d1: Log, d2: Log, merged: Log, v0: View, v1: View, v2: View)
    requires IsDiff(d1, v0, v1) && IsDiff(d2, v1, v2)
    ensures AllChain(d1, d2)
    ensures IsMerge(d1, d2, merged) ==> IsDiff(merged, v0, v2)
  {
    if IsMerge(d1, d2, merged) {
      forall key
        ensures key in merged <==> v0(key) != v2(key)
        ensures key in merged ==> merged[key] == Transition(v0(key), v2(key))
      {
        assert MergedAt(d1, d2, key) == if v0(key) != v2(key) then Some(Transition(v0(key), v2(key))) else None;
      }
    }
  }

  predicate KeyBefore(a: SaltKey, b: SaltKey) {
    a.bucket < b.bucket || (a.bucket == b.bucket && a.slot < b.slot)
  }

  lemma {:induction false} LeastKeyExists(keys: set<SaltKey>)
    requires keys != {}
    ensures exists k :: k in keys && forall j :: j in keys ==> !KeyBefore(j, k)
  {
    var x :| x in keys;
    if keys != {x} {
      LeastKeyExists(keys - {x});
      var y :| y in keys - {x} && forall j :: j in keys - {x} ==> !KeyBefore(j, y);
      var least := if KeyBefore(x, y) then x else y;
      forall j | j in keys
        ensures !KeyBefore(j, least)
      {
        assert j == x || j in keys - {x};
      }
      assert least in keys;
    } else {
      assert !KeyBefore(x, x);
    }
  }

  // ---------------------------------------------------------------- inverse

  function Inverted(data: Log): Log {
    map key | key in data :: Transition(data[key].after, data[key].before)
  }

  /** Inverting swaps the two views of a difference, so applying the inverse leads back. */
  lemma InverseSwaps(data: Log, v0: View, v1: View)
    ensures IsDiff(data, v0, v1) <==> IsDiff(Inverted(data), v1, v0)
    ensures IsDiff(data, v0, v1) ==> SameView(Apply(Inverted(data), Apply(data, v0)), v0)
  {
    if IsDiff(Inverted(data), v1, v0) {
      assert forall key :: key in data ==> Inverted(data)[key] == Transition(v1(key), v0(key));
    }
  }

  /** The change log as the session extends it. */
  class StateUpdates {
    var data: Log

    constructor ()
      ensures data == map[]
    {
      data := map[];
    }

    /** Records a transition, or reports that it does not start where the last one ended. */
    method TryAdd(key: SaltKey, before: Option<SaltValue>, after: Option<SaltValue>) returns (r: Result<(), SaltError>)
      modifies this
      ensures r.Success? <==> Chains(old(data), key, before)
      ensures r.Success? ==> data == Added(old(data), key, before, after)
      ensures r.Failure? ==> data == old(data)
                             && r.error == UnchainedTransition(key, old(data)[key].after, before)
    {
      if key in data {
        if before != data[key].after {
          return Failure(UnchainedTransition(key, data[key].after, before));
        }
        if data[key].before == after {
          data := data - {key};
        } else {
          data := data[key := Transition(data[key].before, after)];
        }
      } else if before != after {
        data := data[key := Transition(before, after)];
      }
      r := Success(());
    }

    /** `TryAdd` for a transition that chains; one that does not is a caller's error. */
    method Add(key: SaltKey, before: Option<SaltValue>, after: Option<SaltValue>)
      requires Chains(data, key, before)
      modifies this
      ensures data == Added(old(data), key, before, after)
    {
      var r := TryAdd(key, before, after);
    }

    /** Adds every transition of `other` in key order; stops at the first one that does not chain. */
    method TryMerge(other: Log) returns (r: Result<(), SaltError>)
      modifies this
      ensures r.Success? <==> AllChain(old(data), other)
      ensures r.Success? ==> IsMerge(old(data), other, data)
      ensures r.Failure? ==>
        exists key :: key in other && !Chains(old(data), key, other[key].before)
          && r.error == UnchainedTransition(key, old(data)[key].after, other[key].before)
          && forall j :: j in other && KeyBefore(j, key) ==> Chains(old(data), j, other[j].before)
    {
      var rest := other.Keys;
      while rest != {}
        invariant rest <= other.Keys
        invariant forall j, k :: j in other.Keys - rest && k in rest ==> !KeyBefore(k, j)
        invariant forall k :: k in other && k !in rest ==> Chains(old(data), k, other[k].before)
        invariant forall k :: k in rest || k !in other ==> (k in data <==> k in old(data)) && (k in data ==> data[k] == old(data)[k])
        invariant forall k :: k in other && k !in rest ==>
          if k in data then MergedAt(old(data), other, k) == Some(data[k]) else MergedAt(old(data), other, k) == None
        decreases |rest|
      {
        LeastKeyExists(rest);
        var key :| key in rest && forall j :: j in rest ==> !KeyBefore(j, key);
        r := TryAdd(key, other[key].before, other[key].after);
        if r.Failure? {
          return;
        }
        rest := rest - {key};
      }
      r := Success(());
    }

    /** Swaps the two values of every transition. */
    method Inverse()
      modifies this
      ensures data == Inverted(old(data))
    {
      var rest := data.Keys;
      while rest != {}
        invariant rest <= data.Keys == old(data).Keys
        invariant forall k :: k in rest ==> data[k] == old(data)[k]
        invariant forall k :: k in data && k !in rest ==> data[k] == Inverted(old(data))[k]
        decreases |rest|
      {
        var key :| key in rest;
        data := data[key := Transition(data[key].after, data[key].before)];
        rest := rest - {key};
      }
    }
  }
}
