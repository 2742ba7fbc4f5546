/**
 The one-token semaphore of the client registry (src/client_registry.c:46-73, 75-102, 157-164), for any
 number of service threads, each registering a client and later unregistering it, and any number of
 threads waiting for the registry to be empty.

 A step is one lock, unlock, semaphore operation or update.  A registering thread waits for the token
 while it holds the registry's mutex.
 */
module RegistrySemaphore {
  import opened Tallies
  import opened Players

  /** Where a thread is.  From RegisterEntered to RegisterLeaves, and likewise to unregister, it holds the mutex. */
  datatype Place =
    | Outside            // a service thread before creg_register
    | RegisterEntered    // has the mutex
    | RegisterWaits      // has the mutex and waits for the token: the registry was empty
    | RegisterCounts     // about to increment len
    | RegisterLeaves     // about to unlock, registered
    | RegisterFull       // about to unlock, refused
    | Serving            // registered
    | UnregisterEntered  // has the mutex
    | UnregisterPosts    // len became 0: about to post the token
    | UnregisterLeaves   // about to unlock
    | Finished
    | WaitStart          // a thread about to wait in creg_wait_for_empty
    | WaitHas            // has the token, about to post it
    | WaitDone

  datatype State = State(places: seq<Place>, mutex: int, token: nat, len: nat)

  const NOBODY := -1

  predicate HasMutex(p: Place) {
    p == RegisterEntered || p == RegisterWaits || p == RegisterCounts || p == RegisterLeaves || p == RegisterFull
    || p == UnregisterEntered || p == UnregisterPosts || p == UnregisterLeaves
  }

  predicate Done(p: Place) {
    p == Finished || p == WaitDone
  }

  /** Can thread t take a step? */
  predicate Enabled(s: State, t: nat)
    requires t < |s.places|
  {
    match s.places[t]
    case Outside => s.mutex == NOBODY
    case Serving => s.mutex == NOBODY
    case RegisterWaits => s.token > 0
    case WaitStart => s.token > 0
    case Finished => false
    case WaitDone => false
    case _ => true
  }

  function Go(s: State, t: nat, p: Place): State
    requires t < |s.places|
  {
    s.(places := s.places[t := p])
  }

  /** The step of thread t. */
  function Step(s: State, t: nat): State
    requires t < |s.places| && Enabled(s, t)
  {
    match s.places[t]
    case Outside => Go(s, t, RegisterEntered).(mutex := t)
    case RegisterEntered =>
      if s.len == MAX_CLIENTS then Go(s, t, RegisterFull)
      else if s.len == 0 then Go(s, t, RegisterWaits)
      else Go(s, t, RegisterCounts)
    case RegisterWaits => Go(s, t, RegisterCounts).(token := s.token - 1)
    case RegisterCounts => Go(s, t, RegisterLeaves).(len := s.len + 1)
    case RegisterLeaves => Go(s, t, Serving).(mutex := NOBODY)
    case RegisterFull => Go(s, t, Finished).(mutex := NOBODY)
    case Serving => Go(s, t, UnregisterEntered).(mutex := t)
    case UnregisterEntered =>
      // len is positive here: see Inv
      var len := if s.len > 0 then s.len - 1 else 0;
      Go(s, t, if len == 0 then UnregisterPosts else UnregisterLeaves).(len := len)
    case UnregisterPosts => Go(s, t, UnregisterLeaves).(token := s.token + 1)
    case UnregisterLeaves => Go(s, t, Finished).(mutex := NOBODY)
    case WaitStart => Go(s, t, WaitHas).(token := s.token - 1)
    case WaitHas => Go(s, t, WaitDone).(token := s.token + 1)
  }

  predicate Initial(s: State) {
    && s.mutex == NOBODY && s.token == 1 && s.len == 0
    && forall t :: 0 <= t < |s.places| ==> s.places[t] == Outside || s.places[t] == WaitStart
  }

  /** The thread in the registry has taken the token without counting its client yet, or not posted it yet. */
  predicate InTransit(s: State) {
    && 0 <= s.mutex < |s.places|
    && ((s.places[s.mutex] == RegisterCounts && s.len == 0) || s.places[s.mutex] == UnregisterPosts)
  }

  /** Threads whose client is registered. */
  function Members(s: State): nat {
    Tally(s.places, Serving) + Tally(s.places, RegisterLeaves) + Tally(s.places, UnregisterEntered)
  }

  predicate Inv(s: State) {
    // mutual exclusion
    && (s.mutex == NOBODY || 0 <= s.mutex < |s.places|)
    && (forall t :: 0 <= t < |s.places| ==> (HasMutex(s.places[t]) <==> s.mutex == t))
    // len counts the registered clients
    && s.len == Members(s)
    && (0 <= s.mutex ==> (s.places[s.mutex] == RegisterWaits || s.places[s.mutex] == UnregisterPosts ==> s.len == 0))
    // one token
    && s.token + Tally(s.places, WaitHas) + (if s.len > 0 then 1 else 0) + (if InTransit(s) then 1 else 0) == 1
  }

  lemma GoTallies(s: State, t: nat, p: Place)
    requires t < |s.places|
    ensures var was, s' := s.places[t], Go(s, t, p);
            && Tally(s'.places, WaitHas) == Tally(s.places, WaitHas) - (if was == WaitHas then 1 else 0)
                 + (if p == WaitHas then 1 else 0)
            && Members(s') == Members(s) - (if was in {Serving, RegisterLeaves, UnregisterEntered} then 1 else 0)
                                         + (if p in {Serving, RegisterLeaves, UnregisterEntered} then 1 else 0)
  {
    TallyUpdate(s.places, t, p, WaitHas);
    TallyUpdate(s.places, t, p, Serving);
    TallyUpdate(s.places, t, p, RegisterLeaves);
    TallyUpdate(s.places, t, p, UnregisterEntered);
  }

  lemma StepInv(s: State, t: nat)
    requires Inv(s) && t < |s.places| && Enabled(s, t)
    ensures Inv(Step(s, t))
  {
    var s' := Step(s, t);
    TallySome(s.places, UnregisterEntered);
    GoTallies(s, t, s'.places[t]);
    assert Go(s, t, s'.places[t]).places == s'.places;
  }

  // ---------------------------------------------------------------- runs

  /** A schedule names threads; one that cannot step when its turn comes stays where it is. */
  function Run(s: State, schedule: seq<nat>): (r: State)
    ensures |r.places| == |s.places|
    decreases |schedule|
  {
    if schedule == [] then s
    else
      var t := schedule[0];
      Run(if t < |s.places| && Enabled(s, t) then Step(s, t) else s, schedule[1..])
  }

  lemma InitialInv(s: State)
    requires Initial(s)
    ensures Inv(s)
  {
    TallySome(s.places, WaitHas);
    TallySome(s.places, Serving);
    TallySome(s.places, RegisterLeaves);
    TallySome(s.places, UnregisterEntered);
  }

  lemma {:induction false} RunInv(s: State, schedule: seq<nat>)
    requires Inv(s)
    ensures Inv(Run(s, schedule))
    decreases |schedule|
  {
    if schedule != [] {
      var t := schedule[0];
      if t < |s.places| && Enabled(s, t) {
        StepInv(s, t);
        RunInv(Step(s, t), schedule[1..]);
      } else {
        RunInv(s, schedule[1..]);
      }
    }
  }

  /** Whoever waited for the registry to be empty goes on only while it is: no client is registered. */
  lemma WaiterSeesEmpty(s: State, schedule: seq<nat>, t: nat)
    requires Initial(s) && t < |s.places|
    requires Run(s, schedule).places[t] == WaitHas
    ensures Run(s, schedule).len == 0 && Members(Run(s, schedule)) == 0
  {
    InitialInv(s);
    RunInv(s, schedule);
    TallySome(Run(s, schedule).places, WaitHas);
  }

  /** At most one thread is inside the registry, and one that unregisters finds itself counted. */
  lemma UnregisterFindsMember(s: State, schedule: seq<nat>, t: nat)
    requires Initial(s) && t < |s.places|
    requires Run(s, schedule).places[t] == UnregisterEntered
    ensures Run(s, schedule).len > 0
    ensures forall u :: 0 <= u < |s.places| && HasMutex(Run(s, schedule).places[u]) ==> u == t
  {
    InitialInv(s);
    RunInv(s, schedule);
    TallySome(Run(s, schedule).places, UnregisterEntered);
  }

  /** No deadlock, although a thread may wait for the token with the mutex in hand: somebody can always step. */
  lemma SomebodyCanStep(s: State, t: nat) returns (u: nat)
    requires Inv(s) && t < |s.places| && !Done(s.places[t])
    ensures u < |s.places| && Enabled(s, u)
  {
    TallySome(s.places, WaitHas);
    if WaitHas in s.places {
      u :| u < |s.places| && s.places[u] == WaitHas;
    } else if s.mutex != NOBODY {
      u := s.mutex;
    } else if s.places[t] == WaitStart {
      if s.len > 0 {
        TallySome(s.places, Serving);
        TallySome(s.places, RegisterLeaves);
        TallySome(s.places, UnregisterEntered);
        u :| u < |s.places| && (s.places[u] == Serving || s.places[u] == RegisterLeaves
            || s.places[u] == UnregisterEntered);
      } else {
        u := t;
      }
    } else {
      u := t;
    }
  }

  /** How many steps a thread has before it. */
  function Ahead(p: Place): nat {
    match p
    case Outside => 9
    case RegisterEntered => 8
    case RegisterWaits => 7
    case RegisterCounts => 6
    case RegisterLeaves => 5
    case RegisterFull => 1
    case Serving => 4
    case UnregisterEntered => 3
    case UnregisterPosts => 2
    case UnregisterLeaves => 1
    case Finished => 0
    case WaitStart => 2
    case WaitHas => 1
    case WaitDone => 0
  }

  function AllAhead(places: seq<Place>): nat {
    if places == [] then 0 else Ahead(places[0]) + AllAhead(places[1..])
  }

  lemma {:induction false} AheadUpdate(places: seq<Place>, t: nat, p: Place)
    requires t < |places|
    ensures AllAhead(places[t := p]) == AllAhead(places) - Ahead(places[t]) + Ahead(p)
  {
    if t == 0 {
      assert places[t := p][1..] == places[1..];
    } else {
      assert places[t := p][1..] == places[1..][t - 1 := p];
      AheadUpdate(places[1..], t - 1, p);
    }
  }

  /** Every thread in the schedule can step when its turn comes. */
  predicate Effective(s: State, schedule: seq<nat>)
    decreases |schedule|
  {
    schedule == [] || (schedule[0] < |s.places| && Enabled(s, schedule[0])
        && Effective(Step(s, schedule[0]), schedule[1..]))
  }

  lemma {:induction false} NothingAhead(places: seq<Place>)
    ensures AllAhead(places) == 0 <==> forall t :: 0 <= t < |places| ==> Done(places[t])
  {
    if places != [] {
      NothingAhead(places[1..]);
      assert (forall t :: 0 <= t < |places| ==> Done(places[t]))
        <==> Done(places[0]) && forall t :: 0 <= t < |places[1..]| ==> Done(places[1..][t]) by {
        assert forall t :: 0 <= t < |places[1..]| ==> places[1..][t] == places[t + 1];
        assert forall t :: 1 <= t < |places| ==> places[t] == places[1..][t - 1];
      }
    }
  }

  /** Steps run out: each brings some thread nearer to its end. */
  lemma {:induction false} StepsRunOut(s: State, schedule: seq<nat>)
    requires Effective(s, schedule)
    ensures |schedule| + AllAhead(Run(s, schedule).places) <= AllAhead(s.places)
    decreases |schedule|
  {
    if schedule != [] {
      var t := schedule[0];
      AheadUpdate(s.places, t, Step(s, t).places[t]);
      assert Step(s, t).places == s.places[t := Step(s, t).places[t]];
      StepsRunOut(Step(s, t), schedule[1..]);
    }
  }

  /**
   However the threads are scheduled, as long as somebody steps they all finish: there are at most
   AllAhead steps, and when no further step is possible, or that many have been made, everybody is done.
   */
  lemma EverybodyFinishes(s: State, schedule: seq<nat>)
    requires Inv(s) && Effective(s, schedule)
    ensures |schedule| <= AllAhead(s.places)
    ensures |schedule| == AllAhead(s.places) ==> forall t :: 0 <= t < |s.places| ==> Done(Run(s, schedule).places[t])
    ensures (forall u :: 0 <= u < |s.places| ==> !Enabled(Run(s, schedule), u)) ==>
              forall t :: 0 <= t < |s.places| ==> Done(Run(s, schedule).places[t])
  {
    StepsRunOut(s, schedule);
    RunInv(s, schedule);
    var r := Run(s, schedule);
    NothingAhead(r.places);
    if t: nat :| t < |r.places| && !Done(r.places[t]) {
      var u := SomebodyCanStep(r, t);
    }
  }

  /** In particular there is always a way to finish. */
  lemma {:induction false} EverybodyCanFinish(s: State) returns (schedule: seq<nat>)
    requires Inv(s)
    ensures forall t :: 0 <= t < |s.places| ==> Done(Run(s, schedule).places[t])
    ensures |schedule| <= AllAhead(s.places)
    decreases AllAhead(s.places)
  {
    if forall t :: 0 <= t < |s.places| ==> Done(s.places[t]) {
      schedule := [];
    } else {
      var t: nat :| t < |s.places| && !Done(s.places[t]);
      var u := SomebodyCanStep(s, t);
      StepInv(s, u);
      AheadUpdate(s.places, u, Step(s, u).places[u]);
      assert Step(s, u).places == s.places[u := Step(s, u).places[u]];
      var rest := EverybodyCanFinish(Step(s, u));
      schedule := [u] + rest;
      assert schedule[1..] == rest;
    }
  }
}
