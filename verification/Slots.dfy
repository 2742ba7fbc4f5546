/** Counting the occupied entries of a fixed table, for the slot tables of clients and of the client registry. */
module Slots {

  /** How many entries differ from the empty value. */
  function Occupied<T(==)>(s: seq<T>, none: T): nat {
    if s == [] then 0 else (if s[0] != none then 1 else 0) + Occupied(s[1..], none)
  }

  lemma {:induction false} OccupiedUpdate<T>(s: seq<T>, none: T, k: nat, v: T)
    requires k < |s|
    ensures Occupied(s[k := v], none)
         == Occupied(s, none) - (if s[k] != none then 1 else 0) + (if v != none then 1 else 0)
  {
    if k == 0 {
      assert s[k := v][1..] == s[1..];
    } else {
      assert s[k := v][1..] == s[1..][k - 1 := v];
      OccupiedUpdate(s[1..], none, k - 1, v);
    }
  }

  /** The two ends of the count: full exactly when nothing is empty, zero exactly when everything is. */
  lemma {:induction false} OccupiedBounds<T>(s: seq<T>, none: T)
    ensures Occupied(s, none) <= |s|
    ensures Occupied(s, none) == |s| <==> none !in s
    ensures Occupied(s, none) == 0 <==> forall k :: 0 <= k < |s| ==> s[k] == none
  {
    if s != [] {
      OccupiedBounds(s[1..], none);
      assert s == [s[0]] + s[1..];
      assert (forall k :: 0 <= k < |s| ==> s[k] == none)
        ==> s[0] == none && forall k :: 0 <= k < |s[1..]| ==> s[1..][k] == s[k + 1];
    }
  }

  /** First fit: when everything below k is taken, at least k entries are. */
  lemma {:induction false} OccupiedPrefix<T>(s: seq<T>, none: T, k: nat)
    requires k <= |s|
    requires forall i :: 0 <= i < k ==> s[i] != none
    ensures k <= Occupied(s, none)
  {
    if k > 0 {
      assert forall i :: 0 <= i < k - 1 ==> s[1..][i] == s[i + 1];
      OccupiedPrefix(s[1..], none, k - 1);
    }
  }

  lemma {:induction false} OccupiedNone<T>(s: seq<T>, none: T)
    requires forall k :: 0 <= k < |s| ==> s[k] == none
    ensures Occupied(s, none) == 0
  {
    OccupiedBounds(s, none);
  }
}
