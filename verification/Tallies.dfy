/** Counting threads by where they are, for the step machines. */
module Tallies {

  function Tally<T(==)>(s: seq<T>, x: T): nat {
    if s == [] then 0 else (if s[0] == x then 1 else 0) + Tally(s[1..], x)
  }

  lemma {:induction false} TallyUpdate<T>(s: seq<T>, t: nat, v: T, x: T)
    requires t < |s|
    ensures Tally(s[t := v], x) == Tally(s, x) - (if s[t] == x then 1 else 0) + (if v == x then 1 else 0)
  {
    if t == 0 {
      assert s[t := v][1..] == s[1..];
    } else {
      assert s[t := v][1..] == s[1..][t - 1 := v];
      TallyUpdate(s[1..], t - 1, v, x);
    }
  }

  lemma {:induction false} TallySome<T>(s: seq<T>, x: T)
    ensures Tally(s, x) > 0 <==> x in s
  {
    if s != [] {
      TallySome(s[1..], x);
      assert s == [s[0]] + s[1..];
    }
  }
}
