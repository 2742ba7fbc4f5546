/**
 Concurrent rating updates (src/player.c:98-127): any number of threads, each posting the result of a
 game between two different players, lock the two ratings in the order of the players' ids.

 A player is its id.  A step is one lock, unlock, reading of both ratings, or writing of one.
 */
module RatingLocks {
  import opened Elo

  /** One call: player_post_result(first, second, result). */
  datatype Call = Call(first: nat, second: nat, result: int) {
    function Low(): nat {
      if first < second then first else second
    }

    function High(): nat {
      if first < second then second else first
    }
  }

  /** Where a thread is, and the new ratings it has computed but not written yet. */
  datatype Place =
    | Start
    | HasLow
    | HasBoth
    | Computed(new1: real, new2: real)
    | WroteFirst(new2: real)
    | WroteBoth
    | ReleasedFirst
    | Done

  /** `commits` is history: the threads in the order in which they read the ratings. */
  datatype State = State(calls: seq<Call>, places: seq<Place>, locks: seq<int>, ratings: seq<real>, commits: seq<nat>)

  const NOBODY := -1

  predicate Shape(s: State) {
    && |s.calls| == |s.places| && |s.locks| == |s.ratings|
    && forall t :: 0 <= t < |s.calls| ==>
         s.calls[t].first < |s.locks| && s.calls[t].second < |s.locks| && 0 <= s.calls[t].result <= 2
  }

  /** Every call names two different players. */
  predicate Distinct(s: State) {
    forall t :: 0 <= t < |s.calls| ==> s.calls[t].first != s.calls[t].second
  }

  predicate Enabled(s: State, t: nat)
    requires Shape(s) && t < |s.places|
  {
    match s.places[t]
    case Start => s.locks[s.calls[t].Low()] == NOBODY
    case HasLow => s.locks[s.calls[t].High()] == NOBODY
    case Done => false
    case _ => true
  }

  function Go(s: State, t: nat, p: Place): State
    requires t < |s.places|
  {
    s.(places := s.places[t := p])
  }

  ghost function Step(s: State, t: nat, pow10: real -> real): State
    requires Shape(s) && t < |s.places| && Enabled(s, t) && IsPower(pow10)
  {
    var c := s.calls[t];
    match s.places[t]
    case Start => Go(s, t, HasLow).(locks := s.locks[c.Low() := t])
    case HasLow => Go(s, t, HasBoth).(locks := s.locks[c.High() := t])
    case HasBoth =>
      var (n1, n2) := Post(pow10, s.ratings[c.first], s.ratings[c.second], c.result);
      Go(s, t, Computed(n1, n2)).(commits := s.commits + [t])
    case Computed(n1, n2) => Go(s, t, WroteFirst(n2)).(ratings := s.ratings[c.first := n1])
    case WroteFirst(n2) => Go(s, t, WroteBoth).(ratings := s.ratings[c.second := n2])
    case WroteBoth => Go(s, t, ReleasedFirst).(locks := s.locks[c.first := NOBODY])
    case ReleasedFirst => Go(s, t, Done).(locks := s.locks[c.second := NOBODY])
  }

  predicate Initial(s: State) {
    && Shape(s) && s.commits == []
    && (forall t :: 0 <= t < |s.places| ==> s.places[t] == Start)
    && (forall i :: 0 <= i < |s.locks| ==> s.locks[i] == NOBODY)
  }

  /** The ratings that the calls would leave one after the other, in this order. */
  ghost function Replay(calls: seq<Call>, ratings: seq<real>, order: seq<nat>, pow10: real -> real): (r: seq<real>)
    requires IsPower(pow10)
    requires forall k :: 0 <= k < |order| ==> order[k] < |calls|
    requires forall t :: 0 <= t < |calls| ==>
      calls[t].first < |ratings| && calls[t].second < |ratings| && calls[t].first != calls[t].second
    ensures |r| == |ratings|
  {
    if order == [] then ratings
    else
      var before := Replay(calls, ratings, order[..|order| - 1], pow10);
      var c := calls[order[|order| - 1]];
      PostAt(pow10, before, c.first, c.second, c.result)
  }

  lemma {:induction false} ReplayConserves(calls: seq<Call>, ratings: seq<real>, order: seq<nat>, pow10: real -> real)
    requires IsPower(pow10)
    requires forall k :: 0 <= k < |order| ==> order[k] < |calls|
    requires forall t :: 0 <= t < |calls| ==>
      calls[t].first < |ratings| && calls[t].second < |ratings| && calls[t].first != calls[t].second
    requires forall t :: 0 <= t < |calls| ==> 0 <= calls[t].result <= 2
    ensures Sum(Replay(calls, ratings, order, pow10)) == Sum(ratings)
  {
    if order != [] {
      var n := |order| - 1;
      ReplayConserves(calls, ratings, order[..n], pow10);
      var c := calls[order[n]];
      PostAtConserves(pow10, Replay(calls, ratings, order[..n], pow10), c.first, c.second, c.result);
    }
  }

  /** Does the thread hold the lock of player i? */
  predicate Holds(c: Call, p: Place, i: nat) {
    match p
    case Start => false
    case HasLow => i == c.Low()
    case ReleasedFirst => i == c.second
    case Done => false
    case _ => i == c.first || i == c.second
  }

  /** What the thread is still going to write to player i, if anything. */
  predicate Pending(c: Call, p: Place, i: nat) {
    (p.Computed? && (i == c.first || i == c.second)) || (p.WroteFirst? && i == c.second)
  }

  /** The thread has read the ratings. */
  predicate Committed(p: Place) {
    p.Computed? || p.WroteFirst? || p == WroteBoth || p == ReleasedFirst || p == Done
  }

  ghost predicate ThreadOk(s: State, t: nat, spec: seq<real>)
    requires Shape(s) && t < |s.places| && |spec| == |s.ratings|
  {
    var c, p := s.calls[t], s.places[t];
    && (forall i :: 0 <= i < |s.locks| ==> (Holds(c, p, i) <==> s.locks[i] == t))
    && (p.Computed? ==> spec[c.first] == p.new1 && spec[c.second] == p.new2)
    && (p.WroteFirst? ==> spec[c.second] == p.new2)
    && (Committed(p) <==> t in s.commits)
  }

  ghost predicate PlayerOk(s: State, i: nat, spec: seq<real>)
    requires Shape(s) && i < |s.locks| && |spec| == |s.ratings|
  {
    && (s.locks[i] == NOBODY || 0 <= s.locks[i] < |s.places|)
    && (s.ratings[i] == spec[i] || (s.locks[i] != NOBODY && Pending(s.calls[s.locks[i]], s.places[s.locks[i]], i)))
  }

  /** `start` are the ratings at the beginning. */
  ghost predicate Inv(s: State, start: seq<real>, pow10: real -> real) {
    && IsPower(pow10) && Shape(s) && Distinct(s) && |start| == |s.ratings|
    && (forall k :: 0 <= k < |s.commits| ==> s.commits[k] < |s.calls|)
    && (forall k, l :: 0 <= k < l < |s.commits| ==> s.commits[k] != s.commits[l])
    && var spec := Replay(s.calls, start, s.commits, pow10);
    && (forall t {:trigger ThreadOk(s, t, spec)} :: 0 <= t < |s.places| ==> ThreadOk(s, t, spec))
    && (forall i {:trigger PlayerOk(s, i, spec)} :: 0 <= i < |s.locks| ==> PlayerOk(s, i, spec))
  }

  lemma InitialInv(s: State, pow10: real -> real)
    requires Initial(s) && Distinct(s) && IsPower(pow10)
    ensures Inv(s, s.ratings, pow10)
  {
    forall t | 0 <= t < |s.places|
      ensures ThreadOk(s, t, s.ratings)
    {
    }
    forall i | 0 <= i < |s.locks|
      ensures PlayerOk(s, i, s.ratings)
    {
    }
  }

  /** A step that reads no ratings leaves the specified ratings alone. */
  lemma QuietThreads(s: State, t: nat, start: seq<real>, pow10: real -> real, spec: seq<real>)
    requires Inv(s, start, pow10) && t < |s.places| && Enabled(s, t) && s.places[t] != HasBoth
    requires spec == Replay(s.calls, start, s.commits, pow10)
    ensures var s' := Step(s, t, pow10);
            forall u {:trigger ThreadOk(s', u, spec)} :: 0 <= u < |s'.places| ==> ThreadOk(s', u, spec)
  {
    var s' := Step(s, t, pow10);
    forall u | 0 <= u < |s'.places|
      ensures ThreadOk(s', u, spec)
    {
      QuietThread(s, t, u, start, pow10, spec);
    }
  }

  lemma QuietThread(s: State, t: nat, u: nat, start: seq<real>, pow10: real -> real, spec: seq<real>)
    requires Inv(s, start, pow10) && t < |s.places| && Enabled(s, t) && s.places[t] != HasBoth && u < |s.places|
    requires spec == Replay(s.calls, start, s.commits, pow10)
    ensures ThreadOk(Step(s, t, pow10), u, spec)
  {
    if u == t {
      assert ThreadOk(s, t, spec);
    } else {
      QuietOther(s, t, u, start, pow10, spec);
    }
  }

  lemma QuietOther(s: State, t: nat, u: nat, start: seq<real>, pow10: real -> real, spec: seq<real>)
    requires Inv(s, start, pow10) && t < |s.places| && Enabled(s, t) && s.places[t] != HasBoth
    requires u < |s.places| && u != t && spec == Replay(s.calls, start, s.commits, pow10)
    ensures ThreadOk(Step(s, t, pow10), u, spec)
  {
    var s' := Step(s, t, pow10);
    assert ThreadOk(s, t, spec) && ThreadOk(s, u, spec);
    assert s'.places[u] == s.places[u] && s'.commits == s.commits;
    forall i | 0 <= i < |s.locks|
      ensures s'.locks[i] == u <==> s.locks[i] == u
    {
      assert Holds(s.calls[t], s.places[t], i) <==> s.locks[i] == t;
    }
  }

  lemma QuietStep(s: State, t: nat, start: seq<real>, pow10: real -> real)
    requires Inv(s, start, pow10) && t < |s.places| && Enabled(s, t) && s.places[t] != HasBoth
    ensures Inv(Step(s, t, pow10), start, pow10)
  {
    var s' := Step(s, t, pow10);
    var spec := Replay(s.calls, start, s.commits, pow10);
    assert ThreadOk(s, t, spec);
    QuietThreads(s, t, start, pow10, spec);
    forall i | 0 <= i < |s'.locks|
      ensures PlayerOk(s', i, spec)
    {
      assert PlayerOk(s, i, spec);
    }
  }

  /** Both locks held, the ratings read are the specified ones: the specification takes the same step. */
  lemma CommitThreads(s: State, t: nat, start: seq<real>, pow10: real -> real, spec: seq<real>, n1: real, n2: real)
    requires Inv(s, start, pow10) && t < |s.places| && s.places[t] == HasBoth
    requires spec == Replay(s.calls, start, s.commits, pow10)
    requires (n1, n2) == Post(pow10, s.ratings[s.calls[t].first], s.ratings[s.calls[t].second], s.calls[t].result)
    ensures var s' := Go(s, t, Computed(n1, n2)).(commits := s.commits + [t]);
            var spec' := spec[s.calls[t].first := n1][s.calls[t].second := n2];
            && t !in s.commits && Shape(s')
            && forall u {:trigger ThreadOk(s', u, spec')} :: 0 <= u < |s'.places| ==> ThreadOk(s', u, spec')
  {
    var s' := Go(s, t, Computed(n1, n2)).(commits := s.commits + [t]);
    var spec' := spec[s.calls[t].first := n1][s.calls[t].second := n2];
    assert ThreadOk(s, t, spec);
    assert s.locks[s.calls[t].first] == t && s.locks[s.calls[t].second] == t;
    forall u | 0 <= u < |s'.places|
      ensures ThreadOk(s', u, spec')
    {
      var d, p := s.calls[u], s.places[u];
      assert ThreadOk(s, u, spec);
      assert (Holds(d, p, d.first) <==> s.locks[d.first] == u) && (Holds(d, p, d.second) <==> s.locks[d.second] == u);
    }
  }

  lemma CommitStep(s: State, t: nat, start: seq<real>, pow10: real -> real)
    requires Inv(s, start, pow10) && t < |s.places| && s.places[t] == HasBoth
    ensures Inv(Step(s, t, pow10), start, pow10)
  {
    var s' := Step(s, t, pow10);
    var c := s.calls[t];
    var spec := Replay(s.calls, start, s.commits, pow10);
    assert s'.commits[..|s'.commits| - 1] == s.commits;
    assert ThreadOk(s, t, spec) && PlayerOk(s, c.first, spec) && PlayerOk(s, c.second, spec);
    var (n1, n2) := Post(pow10, s.ratings[c.first], s.ratings[c.second], c.result);
    CommitThreads(s, t, start, pow10, spec, n1, n2);
    var spec' := spec[c.first := n1][c.second := n2];
    assert spec' == Replay(s.calls, start, s'.commits, pow10);
    forall i | 0 <= i < |s'.locks|
      ensures PlayerOk(s', i, spec')
    {
      assert PlayerOk(s, i, spec);
    }
  }

  lemma StepInv(s: State, t: nat, start: seq<real>, pow10: real -> real)
    requires Inv(s, start, pow10) && t < |s.places| && Enabled(s, t)
    ensures Inv(Step(s, t, pow10), start, pow10)
  {
    if s.places[t] == HasBoth {
      CommitStep(s, t, start, pow10);
    } else {
      QuietStep(s, t, start, pow10);
    }
  }

  // ---------------------------------------------------------------- deadlock freedom

  /**
   Whoever waits for a lock waits for somebody who can step, or who waits for the lock of a player with
   a greater id: there is no circle, and somebody can always step.
   */
  lemma {:induction false} SomebodyCanStep(s: State, start: seq<real>, pow10: real -> real, t: nat) returns (u: nat)
    requires Inv(s, start, pow10) && t < |s.places| && s.places[t] != Done
    ensures u < |s.places| && Enabled(s, u)
    decreases |s.locks| - (if s.places[t] == HasLow then s.calls[t].High()
                           else if s.places[t] == Start then s.calls[t].Low() else |s.locks|)
  {
    u := t;
    if !Enabled(s, t) {
      var c := s.calls[t];
      var wanted := if s.places[t] == Start then c.Low() else c.High();
      var spec := Replay(s.calls, start, s.commits, pow10);
      assert PlayerOk(s, wanted, spec);
      var holder: nat := s.locks[wanted];
      assert ThreadOk(s, holder, spec);
      u := SomebodyCanStep(s, start, pow10, holder);
    }
  }

  // ---------------------------------------------------------------- runs

  /** A schedule names threads; one that cannot step when its turn comes stays where it is. */
  ghost function Run(s: State, schedule: seq<nat>, pow10: real -> real): (r: State)
    requires Shape(s) && IsPower(pow10)
    ensures Shape(r) && r.calls == s.calls && |r.ratings| == |s.ratings| && |r.places| == |s.places|
    decreases |schedule|
  {
    if schedule == [] then s
    else
      var t := schedule[0];
      Run(if t < |s.places| && Enabled(s, t) then Step(s, t, pow10) else s, schedule[1..], pow10)
  }

  lemma {:induction false} RunInv(s: State, schedule: seq<nat>, start: seq<real>, pow10: real -> real)
    requires Inv(s, start, pow10)
    ensures Inv(Run(s, schedule, pow10), start, pow10)
    decreases |schedule|
  {
    if schedule != [] {
      var t := schedule[0];
      if t < |s.places| && Enabled(s, t) {
        StepInv(s, t, start, pow10);
        RunInv(Step(s, t, pow10), schedule[1..], start, pow10);
      } else {
        RunInv(s, schedule[1..], start, pow10);
      }
    }
  }

  /**
   Serialisability: whenever no rating lock is held, the ratings are what the calls made so far give one
   after the other, each once; and their sum is what it was.
   */
  lemma UpdatesSerialise(s: State, schedule: seq<nat>, pow10: real -> real)
    requires Initial(s) && Distinct(s) && IsPower(pow10)
    requires forall i :: 0 <= i < |s.locks| ==> Run(s, schedule, pow10).locks[i] == NOBODY
    ensures var r := Run(s, schedule, pow10);
            && (forall k :: 0 <= k < |r.commits| ==> r.commits[k] < |s.calls|)
            && (forall k, l :: 0 <= k < l < |r.commits| ==> r.commits[k] != r.commits[l])
            && (forall t :: 0 <= t < |s.calls| ==> (t in r.commits <==> r.places[t] == Done))
            && r.ratings == Replay(s.calls, s.ratings, r.commits, pow10)
            && Sum(r.ratings) == Sum(s.ratings)
  {
    InitialInv(s, pow10);
    RunInv(s, schedule, s.ratings, pow10);
    var r := Run(s, schedule, pow10);
    var spec := Replay(s.calls, s.ratings, r.commits, pow10);
    forall i | 0 <= i < |r.ratings|
      ensures r.ratings[i] == spec[i]
    {
      assert PlayerOk(r, i, spec);
    }
    forall t | 0 <= t < |s.calls|
      ensures t in r.commits <==> r.places[t] == Done
    {
      assert ThreadOk(r, t, spec);
      var c := r.calls[t];
      assert !Holds(c, r.places[t], c.Low()) && !Holds(c, r.places[t], c.second);
    }
    ReplayConserves(s.calls, s.ratings, r.commits, pow10);
  }

  /** In every reachable state, as long as some call is unfinished, some thread can step. */
  lemma NoDeadlock(s: State, schedule: seq<nat>, pow10: real -> real, t: nat) returns (u: nat)
    requires Initial(s) && Distinct(s) && IsPower(pow10) && t < |s.places| && Run(s, schedule, pow10).places[t] != Done
    ensures u < |s.places| && Enabled(Run(s, schedule, pow10), u)
  {
    InitialInv(s, pow10);
    RunInv(s, schedule, s.ratings, pow10);
    u := SomebodyCanStep(Run(s, schedule, pow10), s.ratings, pow10, t);
  }

  // ---------------------------------------------------------------- every schedule ends

  /** How many steps a call has before it. */
  function Ahead(p: Place): nat {
    match p
    case Start => 7
    case HasLow => 6
    case HasBoth => 5
    case Computed(_, _) => 4
    case WroteFirst(_) => 3
    case WroteBoth => 2
    case ReleasedFirst => 1
    case Done => 0
  }

  function AllAhead(places: seq<Place>): nat {
    if places == [] then 0 else Ahead(places[0]) + AllAhead(places[1..])
  }

  lemma {:induction false} AheadUpdate(places: seq<Place>, t: nat, p: Place)
    requires t < |places|
    ensures AllAhead(places[t := p]) == AllAhead(places) - Ahead(places[t]) + Ahead(p)
  {
    if t == 0 {
      assert places[t := p][1..] == places[1..];
    } else {
      assert places[t := p][1..] == places[1..][t - 1 := p];
      AheadUpdate(places[1..], t - 1, p);
    }
  }

  lemma {:induction false} NothingAhead(places: seq<Place>)
    ensures AllAhead(places) == 0 <==> forall t :: 0 <= t < |places| ==> places[t] == Done
    ensures (forall t :: 0 <= t < |places| ==> places[t] == Start) ==> AllAhead(places) == 7 * |places|
  {
    if places != [] {
      NothingAhead(places[1..]);
      assert forall t :: 0 <= t < |places[1..]| ==> places[1..][t] == places[t + 1];
      assert forall t :: 1 <= t < |places| ==> places[t] == places[1..][t - 1];
    }
  }

  /** Every thread in the schedule can step when its turn comes. */
  ghost predicate Effective(s: State, schedule: seq<nat>, pow10: real -> real)
    requires Shape(s) && IsPower(pow10)
    decreases |schedule|
  {
    schedule == [] || (schedule[0] < |s.places| && Enabled(s, schedule[0])
        && Effective(Step(s, schedule[0], pow10), schedule[1..], pow10))
  }

  /** Every step brings some call one step nearer to its end. */
  lemma {:induction false} StepsRunOut(s: State, schedule: seq<nat>, pow10: real -> real)
    requires Shape(s) && IsPower(pow10) && Effective(s, schedule, pow10)
    ensures |schedule| + AllAhead(Run(s, schedule, pow10).places) == AllAhead(s.places)
    decreases |schedule|
  {
    if schedule != [] {
      var t := schedule[0];
      var s' := Step(s, t, pow10);
      AheadUpdate(s.places, t, s'.places[t]);
      assert s'.places == s.places[t := s'.places[t]];
      StepsRunOut(s', schedule[1..], pow10);
    }
  }

  /**
   However the calls are scheduled, as long as somebody steps they all finish: seven steps each, and when
   no further step is possible, or that many have been made, every call is done, and the ratings are what
   all of them give one after the other, each once.
   */
  lemma EverybodyFinishes(s: State, schedule: seq<nat>, pow10: real -> real)
    requires Initial(s) && Distinct(s) && IsPower(pow10) && Effective(s, schedule, pow10)
    ensures |schedule| <= 7 * |s.calls|
    ensures var r := Run(s, schedule, pow10);
            |schedule| == 7 * |s.calls| || (forall u :: 0 <= u < |r.places| ==> !Enabled(r, u)) ==>
              && (forall t :: 0 <= t < |s.calls| ==> r.places[t] == Done && t in r.commits)
              && |r.commits| == |s.calls|
              && (forall k :: 0 <= k < |r.commits| ==> r.commits[k] < |s.calls|)
              && r.ratings == Replay(s.calls, s.ratings, r.commits, pow10)
  {
    var r := Run(s, schedule, pow10);
    NothingAhead(s.places);
    NothingAhead(r.places);
    StepsRunOut(s, schedule, pow10);
    if |schedule| == 7 * |s.calls| || (forall u :: 0 <= u < |r.places| ==> !Enabled(r, u)) {
      if t: nat :| t < |r.places| && r.places[t] != Done {
        var u := NoDeadlock(s, schedule, pow10, t);
      }
      AllDone(s, schedule, pow10);
    }
  }

  /** With every call done, no lock is held, and all have been committed, each once. */
  lemma AllDone(s: State, schedule: seq<nat>, pow10: real -> real)
    requires Initial(s) && Distinct(s) && IsPower(pow10)
    requires forall t :: 0 <= t < |s.calls| ==> Run(s, schedule, pow10).places[t] == Done
    ensures var r := Run(s, schedule, pow10);
            && (forall t :: 0 <= t < |s.calls| ==> t in r.commits)
            && |r.commits| == |s.calls|
            && (forall k :: 0 <= k < |r.commits| ==> r.commits[k] < |s.calls|)
            && r.ratings == Replay(s.calls, s.ratings, r.commits, pow10)
  {
    InitialInv(s, pow10);
    RunInv(s, schedule, s.ratings, pow10);
    var r := Run(s, schedule, pow10);
    var spec := Replay(s.calls, s.ratings, r.commits, pow10);
    forall i | 0 <= i < |r.locks|
      ensures r.locks[i] == NOBODY
    {
      assert PlayerOk(r, i, spec);
      assert r.locks[i] != NOBODY ==> ThreadOk(r, r.locks[i], spec);
    }
    UpdatesSerialise(s, schedule, pow10);
    EachOnce(r.commits, |s.calls|);
  }

  /** A list without repetition of all numbers below n has n elements. */
  lemma {:induction false} EachOnce(order: seq<nat>, n: nat)
    requires forall k :: 0 <= k < |order| ==> order[k] < n
    requires forall k, l :: 0 <= k < l < |order| ==> order[k] != order[l]
    requires forall t :: 0 <= t < n ==> t in order
    ensures |order| == n
    decreases n
  {
    if n > 0 {
      assert n - 1 in order;
      var k :| 0 <= k < |order| && order[k] == n - 1;
      var rest := order[..k] + order[k + 1..];
      forall t | 0 <= t < n - 1
        ensures t in rest
      {
        assert t in order;
        var j :| 0 <= j < |order| && order[j] == t;
        assert rest[if j < k then j else j - 1] == t;
      }
      EachOnce(rest, n - 1);
    }
  }

  // ---------------------------------------------------------------- one player twice

  /** Whoever has a lock is written in it, and a call with one player twice gets no further than its first lock. */
  ghost predicate LocksOk(s: State, t: nat)
    requires Shape(s) && t < |s.places|
  {
    && (forall i :: 0 <= i < |s.locks| && Holds(s.calls[t], s.places[t], i) ==> s.locks[i] == t)
    && (s.calls[t].first == s.calls[t].second ==> s.places[t] == Start || s.places[t] == HasLow)
  }

  ghost predicate AllLocksOk(s: State) {
    Shape(s) && forall u {:trigger LocksOk(s, u)} :: 0 <= u < |s.places| ==> LocksOk(s, u)
  }

  lemma StepLocks(s: State, t: nat, pow10: real -> real)
    requires AllLocksOk(s) && IsPower(pow10) && t < |s.places| && Enabled(s, t)
    ensures AllLocksOk(Step(s, t, pow10))
  {
    var s' := Step(s, t, pow10);
    assert LocksOk(s, t);
    forall u | 0 <= u < |s'.places|
      ensures LocksOk(s', u)
    {
      assert LocksOk(s, u);
    }
  }

  lemma {:induction false} RunLocks(s: State, schedule: seq<nat>, pow10: real -> real)
    requires AllLocksOk(s) && IsPower(pow10)
    ensures AllLocksOk(Run(s, schedule, pow10))
    decreases |schedule|
  {
    if schedule != [] {
      var t := schedule[0];
      if t < |s.places| && Enabled(s, t) {
        StepLocks(s, t, pow10);
        RunLocks(Step(s, t, pow10), schedule[1..], pow10);
      } else {
        RunLocks(s, schedule[1..], pow10);
      }
    }
  }

  /**
   A call that names one player twice never ends, under any schedule and beside any other calls: it waits
   for the lock that it has.  This is why player_post_result needs two different players.
   */
  lemma OnePlayerTwiceHangs(s: State, schedule: seq<nat>, pow10: real -> real, t: nat)
    requires Initial(s) && IsPower(pow10) && t < |s.places| && s.calls[t].first == s.calls[t].second
    ensures var r := Run(s, schedule, pow10);
            r.places[t] == Start || (r.places[t] == HasLow && r.locks[s.calls[t].first] == t && !Enabled(r, t))
  {
    forall u | 0 <= u < |s.places|
      ensures LocksOk(s, u)
    {
    }
    RunLocks(s, schedule, pow10);
    var r, c := Run(s, schedule, pow10), s.calls[t];
    assert LocksOk(r, t);
    assert r.calls[t] == c && c.first == c.second && Shape(r);
    if r.places[t] == HasLow {
      assert Holds(c, r.places[t], c.first);
      assert r.locks[c.first] == t;
    }
  }
}
