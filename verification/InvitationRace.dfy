/**
 The race for one invitation: any number of threads trying to revoke, decline, accept or resign it, at
 the granularity of its state_mutex and of the two tables' mutexes (src/invitation.c:147-189,
 src/client.c:362-382, 408-431, 530-553, 595-617).

 Moves are not among the threads here, so an accepted game runs until it is resigned.
 */
module InvitationRace {

  datatype Attempt = Revoke | Decline | Accept | ResignSource | ResignTarget

  datatype Phase = Open | Accepted | Closed
  datatype GameState = NoGame | Running | Over

  /** Where a thread is; from Checking to Losing or Winning it holds the state_mutex. */
  datatype Place =
    | Start
    | Checking      // has the mutex, about to look at the state and the game
    | Writing       // has set up or terminated the game, about to write the state
    | Losing        // about to unlock and report failure
    | Winning       // about to unlock and report success
    | LeavingOwn    // closed it: about to remove it from its own table
    | LeavingOther  // about to remove it from the other party's table
    | Succeeded
    | Failed

  /**
   `opener` and `closer` are history: which thread took the invitation out of OPEN, and which to CLOSED;
   `missed` says whether a removal ever found nothing.
   */
  datatype State = State(
    attempts: seq<Attempt>, places: seq<Place>,
    mutex: int, state: Phase, game: GameState, inSource: bool, inTarget: bool,
    opener: int, closer: int, missed: bool)

  const NOBODY := -1

  predicate HasMutex(p: Place) {
    p == Checking || p == Writing || p == Losing || p == Winning
  }

  predicate Enabled(s: State, t: nat)
    requires t < |s.places|
  {
    match s.places[t]
    case Start => s.mutex == NOBODY
    case Succeeded => false
    case Failed => false
    case _ => true
  }

  function Go(s: State, t: nat, p: Place): State
    requires t < |s.places|
  {
    s.(places := s.places[t := p])
  }

  predicate Resigns(a: Attempt) {
    a == ResignSource || a == ResignTarget
  }

  /** Is the thread's own table the source's? */
  predicate OfSource(a: Attempt) {
    a == Revoke || a == ResignSource
  }

  /** inv_accept and inv_close up to the write of the state. */
  function Check(s: State, t: nat): State
    requires t < |s.places| && |s.attempts| == |s.places|
  {
    var a := s.attempts[t];
    if a == Accept then
      if s.state != Open then Go(s, t, Losing) else Go(s, t, Writing).(game := Running)
    else if s.state == Closed then Go(s, t, Losing)
    else if Resigns(a) then
      // game_resign fails without a game, and when the game is over
      if s.game != Running then Go(s, t, Losing) else Go(s, t, Writing).(game := Over)
    else
      if s.game == NoGame then Go(s, t, Writing) else Go(s, t, Losing)
  }

  function Write(s: State, t: nat): State
    requires t < |s.places| && |s.attempts| == |s.places|
  {
    var opener := if s.state == Open then t else s.opener;
    if s.attempts[t] == Accept then Go(s, t, Winning).(state := Accepted, opener := opener)
    else Go(s, t, Winning).(state := Closed, opener := opener, closer := t)
  }

  /** client_remove_invitation on one of the tables. */
  function Remove(s: State, fromSource: bool): State {
    if fromSource then s.(inSource := false, missed := s.missed || !s.inSource)
    else s.(inTarget := false, missed := s.missed || !s.inTarget)
  }

  function Step(s: State, t: nat): State
    requires t < |s.places| && |s.attempts| == |s.places| && Enabled(s, t)
  {
    match s.places[t]
    case Start => Go(s, t, Checking).(mutex := t)
    case Checking => Check(s, t)
    case Writing => Write(s, t)
    case Losing => Go(s, t, Failed).(mutex := NOBODY)
    case Winning => Go(s, t, if s.attempts[t] == Accept then Succeeded else LeavingOwn).(mutex := NOBODY)
    case LeavingOwn => Remove(Go(s, t, LeavingOther), OfSource(s.attempts[t]))
    case LeavingOther => Remove(Go(s, t, Succeeded), !OfSource(s.attempts[t]))
  }

  predicate Initial(s: State) {
    && |s.attempts| == |s.places| && s.mutex == NOBODY && s.state == Open && s.game == NoGame
    && s.inSource && s.inTarget && s.opener == NOBODY && s.closer == NOBODY && !s.missed
    && forall t :: 0 <= t < |s.places| ==> s.places[t] == Start
  }

  /** The combinations of state and game there are while nobody holds the mutex. */
  predicate Legal(state: Phase, game: GameState) {
    (state == Open && game == NoGame) || (state == Accepted && game == Running)
    || (state == Closed && (game == NoGame || game == Over))
  }

  /** What a thread about to write the state has set up. */
  predicate SetUp(a: Attempt, state: Phase, game: GameState) {
    if a == Accept then state == Open && game == Running
    else if Resigns(a) then state == Accepted && game == Over
    else state == Open && game == NoGame
  }

  /** The thread's call has succeeded, or is bound to. */
  predicate Won(p: Place) {
    p == Winning || p == LeavingOwn || p == LeavingOther || p == Succeeded
  }

  ghost predicate ThreadOk(s: State, t: nat)
    requires t < |s.places| && |s.attempts| == |s.places|
  {
    var p, a := s.places[t], s.attempts[t];
    && (HasMutex(p) <==> s.mutex == t)
    && (p == Writing ==> SetUp(a, s.state, s.game))
    // only one thread takes the invitation out of OPEN, only one to CLOSED
    && (Won(p) && !Resigns(a) ==> s.opener == t)
    && (Won(p) && a != Accept ==> s.closer == t)
    && (p == LeavingOwn || p == LeavingOther ==> a != Accept)
    && (s.closer == t ==> Won(p) && a != Accept)
  }

  ghost predicate Inv(s: State) {
    && |s.attempts| == |s.places|
    && (s.mutex == NOBODY || 0 <= s.mutex < |s.places|)
    && (forall t {:trigger ThreadOk(s, t)} :: 0 <= t < |s.places| ==> ThreadOk(s, t))
    && (s.mutex == NOBODY || s.places[s.mutex] != Writing ==> Legal(s.state, s.game))
    && (s.state == Open <==> s.opener == NOBODY)
    && (s.state == Closed <==> s.closer != NOBODY)
    && (s.closer == NOBODY || 0 <= s.closer < |s.places|)
    // the tables hold the invitation until the closing thread removes it
    && !s.missed
    && (s.inSource <==> s.closer == NOBODY || StillIn(s, true))
    && (s.inTarget <==> s.closer == NOBODY || StillIn(s, false))
  }

  /** The closing thread has not come to this table yet. */
  predicate StillIn(s: State, source: bool)
    requires |s.attempts| == |s.places| && 0 <= s.closer < |s.places|
  {
    var p := s.places[s.closer];
    p == Winning || p == LeavingOwn || (p == LeavingOther && source != OfSource(s.attempts[s.closer]))
  }

  /** Nothing about the other threads changes, but that none holds the mutex while t does. */
  lemma OthersOk(s: State, s': State, t: nat)
    requires Inv(s) && t < |s.places| && Enabled(s, t) && s' == Step(s, t)
    ensures forall u {:trigger ThreadOk(s', u)} :: 0 <= u < |s'.places| && u != t ==> ThreadOk(s', u)
  {
    assert ThreadOk(s, t);
    forall u | 0 <= u < |s'.places| && u != t
      ensures ThreadOk(s', u)
    {
      assert ThreadOk(s, u);
    }
  }

  /** A step inside the critical section, or into or out of it. */
  lemma LockedStep(s: State, t: nat)
    requires Inv(s) && t < |s.places| && Enabled(s, t) && (s.places[t] == Start || HasMutex(s.places[t]))
    ensures Inv(Step(s, t))
  {
    var s' := Step(s, t);
    assert ThreadOk(s, t);
    OthersOk(s, s', t);
    assert s.closer != NOBODY ==> ThreadOk(s, s.closer);
    assert ThreadOk(s', t);
  }

  /** A removal finds the invitation. */
  lemma RemoveStep(s: State, t: nat)
    requires Inv(s) && t < |s.places| && (s.places[t] == LeavingOwn || s.places[t] == LeavingOther)
    ensures Inv(Step(s, t))
  {
    var s' := Step(s, t);
    assert ThreadOk(s, t);
    OthersOk(s, s', t);
    assert s.mutex != NOBODY ==> ThreadOk(s, s.mutex);
    assert ThreadOk(s', t);
  }

  lemma StepInv(s: State, t: nat)
    requires Inv(s) && t < |s.places| && Enabled(s, t)
    ensures Inv(Step(s, t))
  {
    if s.places[t] == LeavingOwn || s.places[t] == LeavingOther {
      RemoveStep(s, t);
    } else {
      LockedStep(s, t);
    }
  }

  // ---------------------------------------------------------------- runs

  /** A schedule names threads; one that cannot step when its turn comes stays where it is. */
  function Run(s: State, schedule: seq<nat>): (r: State)
    requires |s.attempts| == |s.places|
    ensures r.attempts == s.attempts && |r.places| == |s.places|
    decreases |schedule|
  {
    if schedule == [] then s
    else
      var t := schedule[0];
      Run(if t < |s.places| && Enabled(s, t) then Step(s, t) else s, schedule[1..])
  }

  lemma {:induction false} RunInv(s: State, schedule: seq<nat>)
    requires Inv(s)
    ensures Inv(Run(s, schedule))
    decreases |schedule|
  {
    if schedule != [] {
      var t := schedule[0];
      if t < |s.places| && Enabled(s, t) {
        StepInv(s, t);
        RunInv(Step(s, t), schedule[1..]);
      } else {
        RunInv(s, schedule[1..]);
      }
    }
  }

  lemma InitialInv(s: State)
    requires Initial(s)
    ensures Inv(s)
  {
    forall t | 0 <= t < |s.places|
      ensures ThreadOk(s, t)
    {
    }
  }

  /**
   However the attempts interleave: the combination of state and game is legal whenever the mutex is
   free, and no removal ever misses.
   */
  lemma RaceIsSafe(s: State, schedule: seq<nat>)
    requires Initial(s)
    ensures var r := Run(s, schedule);
            && !r.missed
            && (r.mutex == NOBODY ==> Legal(r.state, r.game))
  {
    InitialInv(s);
    RunInv(s, schedule);
  }

  /** Of all revocations, declinations and acceptances at most one succeeds. */
  lemma OneLeavesOpen(s: State, schedule: seq<nat>, t: nat, u: nat)
    requires Initial(s) && t < |s.places| && u < |s.places|
    requires !Resigns(s.attempts[t]) && !Resigns(s.attempts[u])
    requires Won(Run(s, schedule).places[t]) && Won(Run(s, schedule).places[u])
    ensures t == u
  {
    InitialInv(s);
    RunInv(s, schedule);
    assert ThreadOk(Run(s, schedule), t) && ThreadOk(Run(s, schedule), u);
  }

  /** Of all attempts to close it at most one succeeds. */
  lemma OneCloses(s: State, schedule: seq<nat>, t: nat, u: nat)
    requires Initial(s) && t < |s.places| && u < |s.places|
    requires s.attempts[t] != Accept && s.attempts[u] != Accept
    requires Won(Run(s, schedule).places[t]) && Won(Run(s, schedule).places[u])
    ensures t == u
  {
    InitialInv(s);
    RunInv(s, schedule);
    assert ThreadOk(Run(s, schedule), t) && ThreadOk(Run(s, schedule), u);
  }

  /** A resignation succeeds only after an acceptance did, and never beside a revocation or declination. */
  lemma ResignAfterAccept(s: State, schedule: seq<nat>, t: nat, u: nat)
    requires Initial(s) && t < |s.places| && u < |s.places|
    requires Resigns(s.attempts[t]) && Won(Run(s, schedule).places[t])
    ensures s.attempts[u] == Revoke || s.attempts[u] == Decline ==> !Won(Run(s, schedule).places[u])
  {
    InitialInv(s);
    RunInv(s, schedule);
    assert ThreadOk(Run(s, schedule), t) && ThreadOk(Run(s, schedule), u);
  }

  /** Only a thread that closed the invitation removes it from a table. */
  lemma OnlyTheCloserRemoves(s: State, schedule: seq<nat>)
    requires Initial(s)
    ensures var r := Run(s, schedule);
            !r.inSource || !r.inTarget ==>
              0 <= r.closer < |r.places| && Won(r.places[r.closer]) && s.attempts[r.closer] != Accept
  {
    InitialInv(s);
    RunInv(s, schedule);
    var r := Run(s, schedule);
    assert r.closer != NOBODY ==> ThreadOk(r, r.closer);
  }

  /** Once the closing thread is through, neither table holds the invitation. */
  lemma CloserEmptiesTables(s: State, schedule: seq<nat>, t: nat)
    requires Initial(s) && t < |s.places| && s.attempts[t] != Accept
    requires Run(s, schedule).places[t] == Succeeded
    ensures !Run(s, schedule).inSource && !Run(s, schedule).inTarget
  {
    InitialInv(s);
    RunInv(s, schedule);
    assert ThreadOk(Run(s, schedule), t);
  }
}
