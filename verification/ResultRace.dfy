/**
 Who posts the result when the two players' threads overlap (src/client.c:720-790, 530-617): after an
 accepted move a thread looks its opponent's table up, sends MOVED, and only then looks whether the game
 is over; after a resignation it leaves both tables.  Whoever finds the game over, or has resigned,
 removes the invitation and posts.

 The steps up to the end of game_apply_move and game_resign are those of module TurnBaton.  A thread that
 resigns has the state_mutex of the invitation while it does (src/invitation.c:168-188).
 */
module ResultRace {
  import opened Roles
  import opened TicTacToe
  import opened TurnBaton

  /** Where a thread is after its move was accepted, or its resignation. */
  datatype Stage =
    | Apart         // neither
    | Searching     // moved: about to look for the invitation in the opponent's table
    | Looking       // has sent MOVED, about to look at the status
    | LeavingOwn    // found the game over: about to remove the invitation from its own table
    | LeavingOther  // about to remove it from the opponent's
    | Resigned      // about to remove it from its own table, and to give up if it is not there
    | HalfResigned  // about to remove it from the opponent's, and to give up if it is not there
    | Posting       // about to read the winner and to post

  /** The tables' entries, and the history of posts: by whom, and the winner as read. */
  datatype Race = Race(base: State, first: Stage, second: Stage, inFirst: bool, inSecond: bool,
      posts: seq<(Role, Role)>)

  function StageOf(s: Race, r: Role): Stage {
    if r == First then s.first else s.second
  }

  /** Does the player's own table hold the invitation? */
  predicate Own(s: Race, r: Role) {
    if r == First then s.inFirst else s.inSecond
  }

  function To(s: Race, r: Role, stage: Stage): Race {
    if r == First then s.(first := stage) else s.(second := stage)
  }

  function Without(s: Race, r: Role): Race {
    if r == First then s.(inFirst := false) else s.(inSecond := false)
  }

  /** The stage after the last step of game_apply_move or game_resign. */
  function After(p: Place): Stage {
    match p
    case Flipped(v) => if v.Line? then Apart else Searching
    case Awarding(_) => Searching
    case Conceding => Resigned
    case _ => Apart
  }

  predicate Conceded(p: Place) {
    p == Resigning || p == Conceding
  }

  /** A request finds the invitation in the client's own table, and a resignation waits for the state_mutex. */
  predicate Allowed(s: Race, a: Action)
    requires a.role != NullRole
  {
    match a
    case Begin(r, _) => Own(s, r)
    case GiveUp(r) => Own(s, r) && !Conceded(At(s.base, Opponent(r)))
    case Continue(_) => true
  }

  /** A step after the move or the resignation. */
  function Finish(s: Race, r: Role): Race {
    match StageOf(s, r)
    case Apart => s
    case Searching => To(s, r, if Own(s, Opponent(r)) then Looking else Apart)
    case Looking => To(s, r, if s.base.game.over then LeavingOwn else Apart)
    case LeavingOwn => To(Without(s, r), r, LeavingOther)
    case LeavingOther => To(Without(s, Opponent(r)), r, Posting)
    case Resigned => if Own(s, r) then To(Without(s, r), r, HalfResigned) else To(s, r, Apart)
    case HalfResigned => if Own(s, Opponent(r)) then To(Without(s, Opponent(r)), r, Posting) else To(s, r, Apart)
    case Posting => To(s, r, Apart).(posts := s.posts + [(r, s.base.game.winner)])
  }

  function Advance(s: Race, a: Action): (s': Race)
    requires Shape(s.base)
    ensures Shape(s'.base)
  {
    if a.role == NullRole then s
    else if StageOf(s, a.role) != Apart then if a.Continue? then Finish(s, a.role) else s
    else if Allowed(s, a) then
      To(s.(base := TurnBaton.Step(s.base, a)), a.role, if a.Continue? then After(At(s.base, a.role)) else Apart)
    else s
  }

  function Runs(s: Race, actions: seq<Action>): (r: Race)
    requires Shape(s.base)
    ensures Shape(r.base)
    decreases |actions|
  {
    if actions == [] then s else Runs(Advance(s, actions[0]), actions[1..])
  }

  function Kickoff(): Race {
    Race(Start(), Apart, Apart, true, true, [])
  }

  /** Both threads have finished what they were doing. */
  predicate Settled(s: Race) {
    s.base.first.Idle? && s.base.second.Idle? && s.first.Apart? && s.second.Apart?
  }

  predicate HasPosted(s: Race, r: Role) {
    exists k :: 0 <= k < |s.posts| && s.posts[k].0 == r
  }

  // ---------------------------------------------------------------- the invariant

  /** The thread has removed the invitation from its own table. */
  predicate Left(stage: Stage, posted: bool) {
    stage == LeavingOther || stage == HalfResigned || stage == Posting || posted
  }

  /** A mover that found the game over has removed it from its own table, and removes it from the other or has. */
  predicate Clears(stage: Stage, posted: bool) {
    stage == LeavingOther || stage == Posting || posted
  }

  /** What one thread's position says, r's own table and its opponent's being as they are. */
  predicate SideOk(over: bool, p: Place, stage: Stage, posted: bool, own: bool, others: bool) {
    && (stage != Apart ==> p.Idle?)
    && (stage != Apart && stage != Searching && stage != Looking ==> over)
    && (Conceded(p) && p != Resigning ==> over)
    && (Left(stage, posted) ==> !own && over)
    && (stage == Posting || posted ==> !others)
    && (posted ==> stage == Apart && p.Idle?)
  }

  /** An entry that is gone was removed by its owner's thread, or else by the opponent's after its own. */
  predicate EntryOk(own: bool, stage: Stage, posted: bool, others: bool, stage': Stage, posted': bool) {
    && (!own ==> Left(stage, posted) || (!others && Clears(stage', posted')))
    && (!own && !Left(stage, posted) ==> !others)
  }

  /** The thread posts, if nobody takes the invitation out of a table that it is going to look at. */
  predicate Coming(p: Place, stage: Stage, own: bool, others: bool) {
    || p.Awarding? || p == Conceding
    || stage == Looking || stage == LeavingOwn || stage == LeavingOther || stage == Posting
    || (stage == Searching && others) || (stage == Resigned && own) || (stage == HalfResigned && others)
  }

  predicate TwoOk(over: bool, p: Place, q: Place, s: Stage, t: Stage, postedP: bool, postedQ: bool, inP: bool,
                  inQ: bool) {
    && SideOk(over, p, s, postedP, inP, inQ) && SideOk(over, q, t, postedQ, inQ, inP)
    && EntryOk(inP, s, postedP, inQ, t, postedQ) && EntryOk(inQ, t, postedQ, inP, s, postedP)
    // two resignations exclude each other
    && !((Conceded(p) || s == Resigned || s == HalfResigned) && (Conceded(q) || t == Resigned || t == HalfResigned))
    // the result of a finished game has been posted, or is going to be
    && (over ==> postedP || postedQ || Coming(p, s, inP, inQ) || Coming(q, t, inQ, inP))
  }

  predicate Distinct(posts: seq<(Role, Role)>) {
    && (forall k :: 0 <= k < |posts| ==> posts[k].0 != NullRole)
    && (forall k, l :: 0 <= k < l < |posts| ==> posts[k].0 != posts[l].0)
  }

  ghost predicate Good(s: Race) {
    && TurnBaton.Inv(s.base) && Distinct(s.posts)
    && TwoOk(s.base.game.over, s.base.first, s.base.second, s.first, s.second, HasPosted(s, First),
         HasPosted(s, Second),
             s.inFirst, s.inSecond)
  }

  lemma KickoffGood()
    ensures Good(Kickoff())
  {
    StartInv();
  }

  /** What a step of TurnBaton does to its own thread's place and to the status. */
  lemma BaseStep(s: State, a: Action)
    requires Shape(s) && a.role != NullRole
    ensures var s' := TurnBaton.Step(s, a);
            && At(s', Opponent(a.role)) == At(s, Opponent(a.role))
            && (s.game.over ==> s'.game.over)
            && (s'.game.over && !s.game.over ==>
                  At(s', a.role).Awarding? || At(s', a.role) == Conceding || After(At(s, a.role)) == Searching)
            && (a.Continue? && After(At(s, a.role)) != Apart ==> At(s', a.role).Idle?)
            && (a.Continue? && After(At(s, a.role)) == Resigned ==> At(s, a.role) == Conceding)
            && (At(s, a.role).Idle? && !a.Begin? && !a.GiveUp? ==> s' == s)
            && (Conceded(At(s', a.role)) ==> Conceded(At(s, a.role)) || (a.GiveUp? && !s.game.over))
            && (At(s', a.role) == Conceding && At(s, a.role) != Conceding ==> s'.game.over)
            && (At(s, a.role).Awarding? && !At(s', a.role).Awarding? ==> a.Continue?)
            && (At(s, a.role) == Conceding && At(s', a.role) != Conceding ==> a.Continue?)
  {
  }

  /** What a step of TurnBaton makes of the place p of its own thread, the stage after it, and the status. */
  predicate Turns(over: bool, p: Place, own: bool, q: Place, over': bool, p': Place, s': Stage) {
    && (over ==> over')
    && (over' && !over ==> p'.Awarding? || p' == Conceding || s' == Searching)
    && (s' != Apart ==> p'.Idle? && (s' == Searching || (s' == Resigned && p == Conceding)))
    && (p.Awarding? ==> p'.Awarding? || s' == Searching)
    && (p == Conceding ==> p' == Conceding || s' == Resigned)
    && (Conceded(p') ==> Conceded(p) || (!over && own && !Conceded(q)))
    && (p' == Conceding && p != Conceding ==> over')
    && (p.Idle? && !own ==> p'.Idle? && s' == Apart)
  }

  lemma BaseTurns(s: Race, a: Action)
    requires Shape(s.base) && a.role != NullRole && StageOf(s, a.role) == Apart && Allowed(s, a)
    ensures var (r, s') := (a.role, Advance(s, a));
            Turns(s.base.game.over, At(s.base, r), Own(s, r), At(s.base, Opponent(r)), s'.base.game.over,
                At(s'.base, r),
                  StageOf(s', r))
  {
    BaseStep(s.base, a);
  }

  lemma TurnsOk(over: bool, p: Place, q: Place, t: Stage, postedP: bool, postedQ: bool, inP: bool, inQ: bool,
                over': bool,
                p': Place, s': Stage)
    requires TwoOk(over, p, q, Apart, t, postedP, postedQ, inP, inQ) && Turns(over, p, inP, q, over', p', s')
    ensures TwoOk(over', p', q, s', t, postedP, postedQ, inP, inQ)
  {
  }

  lemma BaseGood(s: Race, a: Action)
    requires Good(s) && a.role != NullRole && StageOf(s, a.role) == Apart && Allowed(s, a)
    ensures Good(Advance(s, a))
  {
    BaseTurns(s, a);
    BaseStep(s.base, a);
    TurnBaton.StepInv(s.base, a);
    var s', b := Advance(s, a), s.base;
    var x, y := HasPosted(s, First), HasPosted(s, Second);
    assert HasPosted(s', First) == x && HasPosted(s', Second) == y;
    if a.role == First {
      TurnsOk(b.game.over, b.first, b.second, s.second, x, y, s.inFirst, s.inSecond, s'.base.game.over, s'.base.first,
              s'.first);
    } else {
      Symmetric(b.game.over, b.first, b.second, s.first, s.second, x, y, s.inFirst, s.inSecond);
      TurnsOk(b.game.over, b.second, b.first, s.first, y, x, s.inSecond, s.inFirst, s'.base.game.over, s'.base.second,
              s'.second);
      Symmetric(s'.base.game.over, s'.base.second, b.first, s'.second, s.first, y, x, s.inSecond, s.inFirst);
    }
  }

  lemma PostGood(s: Race, r: Role)
    requires Good(s) && r != NullRole && StageOf(s, r) == Posting
    ensures Good(Finish(s, r)) && HasPosted(Finish(s, r), r)
    ensures HasPosted(Finish(s, r), Opponent(r)) == HasPosted(s, Opponent(r))
  {
    var s' := Finish(s, r);
    assert s'.posts[|s.posts|].0 == r;
    assert forall k :: 0 <= k < |s.posts| ==> s'.posts[k] == s.posts[k];
    assert !HasPosted(s, r);
  }

  /** A step of Finish but the last, on its own. */
  function NextStage(over: bool, s: Stage, inP: bool, inQ: bool): (Stage, bool, bool) {
    match s
    case Searching => (if inQ then Looking else Apart, inP, inQ)
    case Looking => (if over then LeavingOwn else Apart, inP, inQ)
    case LeavingOwn => (LeavingOther, false, inQ)
    case LeavingOther => (Posting, inP, false)
    case Resigned => (if inP then HalfResigned else Apart, false, inQ)
    case HalfResigned => (if inQ then Posting else Apart, inP, false)
    case _ => (s, inP, inQ)
  }

  lemma NextOk(over: bool, p: Place, q: Place, s: Stage, t: Stage, postedP: bool, postedQ: bool, inP: bool, inQ: bool)
    requires TwoOk(over, p, q, s, t, postedP, postedQ, inP, inQ)
    ensures var (s', inP', inQ') := NextStage(over, s, inP, inQ); TwoOk(over, p, q, s', t, postedP, postedQ, inP', inQ')
  {
  }

  lemma Symmetric(over: bool, p: Place, q: Place, s: Stage, t: Stage, postedP: bool, postedQ: bool, inP: bool,
                  inQ: bool)
    requires TwoOk(over, p, q, s, t, postedP, postedQ, inP, inQ)
    ensures TwoOk(over, q, p, t, s, postedQ, postedP, inQ, inP)
  {
  }

  lemma FinishGood(s: Race, r: Role)
    requires Good(s) && r != NullRole && StageOf(s, r) != Apart
    ensures Good(Finish(s, r))
  {
    if StageOf(s, r) == Posting {
      PostGood(s, r);
    } else {
      var s', b := Finish(s, r), s.base;
      var x, y := HasPosted(s, First), HasPosted(s, Second);
      assert HasPosted(s', First) == x && HasPosted(s', Second) == y;
      if r == First {
        NextOk(b.game.over, b.first, b.second, s.first, s.second, x, y, s.inFirst, s.inSecond);
      } else {
        Symmetric(b.game.over, b.first, b.second, s.first, s.second, x, y, s.inFirst, s.inSecond);
        NextOk(b.game.over, b.second, b.first, s.second, s.first, y, x, s.inSecond, s.inFirst);
        Symmetric(b.game.over, b.second, b.first, s'.second, s'.first, y, x, s'.inSecond, s'.inFirst);
      }
    }
  }

  lemma AdvanceGood(s: Race, a: Action)
    requires Good(s)
    ensures Good(Advance(s, a))
  {
    if a.role != NullRole {
      if StageOf(s, a.role) != Apart {
        if a.Continue? {
          FinishGood(s, a.role);
        }
      } else if Allowed(s, a) {
        BaseGood(s, a);
      }
    }
  }

  lemma {:induction false} RunsGood(s: Race, actions: seq<Action>)
    requires Good(s)
    ensures Good(Runs(s, actions))
    decreases |actions|
  {
    if actions != [] {
      AdvanceGood(s, actions[0]);
      RunsGood(Advance(s, actions[0]), actions[1..]);
    }
  }

  lemma Reaches(actions: seq<Action>)
    ensures Good(Runs(Kickoff(), actions))
  {
    KickoffGood();
    RunsGood(Kickoff(), actions);
  }

  // ---------------------------------------------------------------- how many posts

  /** In every interleaving each player's thread posts at most once, and only of a finished game. */
  lemma AtMostOnePostEach(actions: seq<Action>)
    ensures var s := Runs(Kickoff(), actions);
            && (forall k, l :: 0 <= k < l < |s.posts| ==> s.posts[k].0 != s.posts[l].0)
            && |s.posts| <= 2 && (s.posts != [] ==> s.base.game.over)
  {
    Reaches(actions);
    var s := Runs(Kickoff(), actions);
    assert |s.posts| > 2 ==> s.posts[0].0 != s.posts[1].0 && s.posts[2].0 != NullRole;
    if s.posts != [] {
      assert HasPosted(s, s.posts[0].0);
    }
  }

  /** When both threads are done, a finished game has been posted. */
  lemma SomebodyPosts(actions: seq<Action>)
    requires Settled(Runs(Kickoff(), actions))
    ensures var s := Runs(Kickoff(), actions);
            s.base.game.over <==> s.posts != []
  {
    Reaches(actions);
    AtMostOnePostEach(actions);
  }

  // ---------------------------------------------------------------- when there are two

  /** Some table has lost the invitation already. */
  predicate Begun(s: Race) {
    !s.inFirst || !s.inSecond
  }

  /** The thread has posted or cannot help it any more, once the game is over. */
  predicate Bound(s: Race, r: Role) {
    || HasPosted(s, r)
    || StageOf(s, r) == Looking || StageOf(s, r) == LeavingOwn || StageOf(s, r) == LeavingOther
         || StageOf(s, r) == Posting
  }

  /** It has resigned, and posts if it gets to the opponent's table first. */
  predicate Undecided(s: Race, r: Role) {
    StageOf(s, r) == HalfResigned && Own(s, Opponent(r))
  }

  lemma BaseDecided(s: Race, a: Action, r: Role)
    requires Good(s) && Begun(s) && r != NullRole && !Undecided(s, r)
    requires a.role != NullRole && StageOf(s, a.role) == Apart && Allowed(s, a)
    ensures var s' := Advance(s, a);
            Begun(s') && !Undecided(s', r) && (Bound(s', r) <==> Bound(s, r))
  {
    BaseTurns(s, a);
    assert HasPosted(Advance(s, a), r) == HasPosted(s, r);
  }

  lemma FinishDecided(s: Race, o: Role, r: Role)
    requires Good(s) && Begun(s) && r != NullRole && !Undecided(s, r) && o != NullRole && StageOf(s, o) != Apart
    ensures var s' := Finish(s, o);
            Begun(s') && !Undecided(s', r) && (Bound(s', r) <==> Bound(s, r))
  {
    if StageOf(s, o) == Posting {
      PostGood(s, o);
    } else {
      assert HasPosted(Finish(s, o), r) == HasPosted(s, r);
    }
  }

  lemma StepDecided(s: Race, a: Action, r: Role)
    requires Good(s) && Begun(s) && r != NullRole && !Undecided(s, r)
    ensures var s' := Advance(s, a);
            Good(s') && Begun(s') && !Undecided(s', r) && (Bound(s', r) <==> Bound(s, r))
  {
    AdvanceGood(s, a);
    if a.role != NullRole {
      if StageOf(s, a.role) != Apart {
        if a.Continue? {
          FinishDecided(s, a.role, r);
        }
      } else if Allowed(s, a) {
        BaseDecided(s, a, r);
      }
    }
  }

  /** Once a table has lost the invitation it is decided who posts. */
  lemma {:induction false} PostsDecided(s: Race, actions: seq<Action>, r: Role)
    requires Good(s) && Begun(s) && r != NullRole && !Undecided(s, r) && Settled(Runs(s, actions))
    ensures HasPosted(Runs(s, actions), r) <==> Bound(s, r)
    decreases |actions|
  {
    if actions != [] {
      StepDecided(s, actions[0], r);
      PostsDecided(Advance(s, actions[0]), actions[1..], r);
    }
  }

  lemma PostCount(s: Race)
    requires Good(s)
    ensures |s.posts| == (if HasPosted(s, First) then 1 else 0) + (if HasPosted(s, Second) then 1 else 0)
  {
    if |s.posts| >= 1 {
      assert HasPosted(s, s.posts[0].0);
    }
    if |s.posts| >= 2 {
      assert HasPosted(s, s.posts[1].0);
    }
    assert |s.posts| > 2 ==> s.posts[0].0 != s.posts[1].0 && s.posts[2].0 != NullRole;
  }

  /**
   Exactly when the result is posted twice: a mover is about to take the invitation out of a table, which
   nobody has done yet, and the opponent's thread is past its search and has not looked at the status yet,
   or has found the game over too.  Otherwise it is posted once.
   */
  lemma PostedTwice(actions: seq<Action>, r: Role, more: seq<Action>)
    requires r != NullRole && !Begun(Runs(Kickoff(), actions)) && StageOf(Runs(Kickoff(), actions), r) == LeavingOwn
    requires Settled(Runs(Finish(Runs(Kickoff(), actions), r), more))
    ensures var s := Runs(Kickoff(), actions);
            var other := StageOf(s, Opponent(r));
            |Runs(Finish(s, r), more).posts| == if other == Looking || other == LeavingOwn then 2 else 1
  {
    Reaches(actions);
    var s := Runs(Kickoff(), actions);
    var s' := Finish(s, r);
    FinishGood(s, r);
    assert HasPosted(s', First) == HasPosted(s, First) && HasPosted(s', Second) == HasPosted(s, Second);
    PostsDecided(s', more, First);
    PostsDecided(s', more, Second);
    RunsGood(s', more);
    PostCount(Runs(s', more));
  }

  // ---------------------------------------------------------------- the winner that is posted

  function Awarded(v: Verdict, winner: Role): Role {
    match v
    case Line(m) => if m == X then First else Second
    case _ => winner
  }

  /** The winner there will be when the thread of role r, now at p, has finished and nobody else moves. */
  function Foretold(g: Ttt, r: Role, p: Place): Role
    requires |g.cells| == 9
  {
    match p
    case Ongoing(c) => if c < 9
        && g.cells[c] == Blank then Awarded(Verify(g.cells[c := MarkOf(r)]), g.winner) else g.winner
    case Free(c) => if c < 9 then Awarded(Verify(g.cells[c := MarkOf(r)]), g.winner) else g.winner
    case Marked(v) => Awarded(v, g.winner)
    case Flipped(v) => Awarded(v, g.winner)
    case Awarding(m) => if m == X then First else Second
    case Resigning => Opponent(r)
    case Conceding => Opponent(r)
    case _ => g.winner
  }

  /** The thread is past its look at the status and has not set the winner yet, if it is going to. */
  predicate Pending(p: Place) {
    p.Ongoing? || p.Free? || p.Marked? || p.Flipped? || p.Awarding? || Conceded(p)
  }

  /** When both tables have lost the invitation only one thread can still be at its move, or resign. */
  predicate OnlyOther(s: Race, r: Role) {
    r != NullRole && !s.inFirst && !s.inSecond && s.base.game.over && At(s.base, r).Idle?
  }

  lemma ForetoldStays(s: State, r: Role)
    requires TurnBaton.Inv(s) && s.game.over && r != NullRole
    ensures var s' := TurnBaton.Step(s, Continue(r));
            Foretold(s'.game, r, At(s', r)) == Foretold(s.game, r, At(s, r))
  {
    if At(s, r).Free? {
      ForetoldWrite(s, r);
    } else {
      ForetoldQuiet(s.game, r, At(s, r));
    }
  }

  lemma ForetoldWrite(s: State, r: Role)
    requires TurnBaton.Inv(s) && r != NullRole && At(s, r).Free?
    ensures var s' := Write(s, r, At(s, r).cell);
            Foretold(s'.game, r, At(s', r)) == Foretold(s.game, r, At(s, r))
  {
    WriteIsSafe(s, r);
  }

  lemma ForetoldQuiet(g: Ttt, r: Role, p: Place)
    requires |g.cells| == 9 && g.over && r != NullRole && !p.Free?
    ensures var (p', g') := Proceed(g, r, p); Foretold(g', r, p') == Foretold(g, r, p)
  {
  }

  /** No other step has an effect on the game or the tables any more. */
  lemma IdleStep(s: Race, a: Action, r: Role)
    requires OnlyOther(s, r) && Shape(s.base) && !(a.role == Opponent(r) && StageOf(s, a.role) == Apart && a.Continue?)
    ensures var s' := Advance(s, a);
            s'.base == s.base && !s'.inFirst && !s'.inSecond
  {
    if a.role == r && StageOf(s, r) == Apart {
      BaseStep(s.base, a);
    }
  }

  lemma OthersStep(s: Race, a: Action, r: Role)
    requires Good(s) && OnlyOther(s, r)
    ensures var s', o := Advance(s, a), Opponent(r);
            && OnlyOther(s', r)
            && Foretold(s'.base.game, o, At(s'.base, o)) == Foretold(s.base.game, o, At(s.base, o))
  {
    if a.role == Opponent(r) && StageOf(s, a.role) == Apart && a.Continue? {
      OthersTurn(s, r);
    } else {
      IdleStep(s, a, r);
    }
  }

  lemma OthersTurn(s: Race, r: Role)
    requires Good(s) && OnlyOther(s, r) && StageOf(s, Opponent(r)) == Apart
    ensures var o := Opponent(r);
            var s' := Advance(s, Continue(o));
            OnlyOther(s', r) && Foretold(s'.base.game, o, At(s'.base, o)) == Foretold(s.base.game, o, At(s.base, o))
  {
    ForetoldStays(s.base, Opponent(r));
    BaseStep(s.base, Continue(Opponent(r)));
  }

  lemma {:induction false} FinalWinner(s: Race, actions: seq<Action>, r: Role)
    requires Good(s) && OnlyOther(s, r) && Settled(Runs(s, actions))
    ensures Runs(s, actions).base.game.winner == Foretold(s.base.game, Opponent(r), At(s.base, Opponent(r)))
    decreases |actions|
  {
    if actions != [] {
      AdvanceGood(s, actions[0]);
      OthersStep(s, actions[0], r);
      FinalWinner(Advance(s, actions[0]), actions[1..], r);
    }
  }

  /**
   The winner that is posted is the one the game ends up with exactly if the other thread is not going to
   set another one; it can be wrong only if it is read before the other thread has set the winner.
   */
  lemma PostedWinner(actions: seq<Action>, r: Role, more: seq<Action>)
    requires r != NullRole && StageOf(Runs(Kickoff(), actions), r) == Posting
    requires Settled(Runs(Runs(Kickoff(), actions), more))
    ensures var s, o := Runs(Kickoff(), actions), Opponent(r);
            var final := Runs(s, more).base.game.winner;
            && final == Foretold(s.base.game, o, At(s.base, o))
            && (s.base.game.winner != final ==> Pending(At(s.base, o)))
  {
    Reaches(actions);
    FinalWinner(Runs(Kickoff(), actions), more, r);
  }

  // ---------------------------------------------------------------- one request at a time

  lemma {:induction false} RunsAppend(s: Race, a: seq<Action>, b: seq<Action>)
    requires Shape(s.base)
    ensures Runs(s, a + b) == Runs(Runs(s, a), b)
    decreases |a|
  {
    if a == [] {
      assert a + b == b;
    } else {
      assert (a + b)[1..] == a[1..] + b;
      RunsAppend(Advance(s, a[0]), a[1..], b);
    }
  }

  lemma OnceMore(s: Race, r: Role, n: nat)
    requires Shape(s.base) && n > 0
    ensures Runs(s, Continues(r, n)) == Runs(Advance(s, Continue(r)), Continues(r, n - 1))
  {
    assert Continues(r, n)[1..] == Continues(r, n - 1);
  }

  lemma {:induction false} ContinuesAdd(r: Role, m: nat, n: nat)
    ensures Continues(r, m) + Continues(r, n) == Continues(r, m + n)
  {
    if m == 0 {
      assert Continues(r, m) + Continues(r, n) == Continues(r, n);
    } else {
      ContinuesAdd(r, m - 1, n);
      assert Continues(r, m) + Continues(r, n) == [Continue(r)] + (Continues(r, m - 1) + Continues(r, n));
    }
  }

  /** How many steps a thread has before it in the request it is at. */
  function Ahead(p: Place, stage: Stage): nat {
    match stage
    case Searching => 5
    case Looking => 4
    case LeavingOwn => 3
    case LeavingOther => 2
    case Resigned => 3
    case HalfResigned => 2
    case Posting => 1
    case Apart =>
      match p
      case Idle => 0
      case Parsed(_) => 11
      case Ongoing(_) => 10
      case Free(_) => 9
      case Marked(_) => 8
      case Flipped(_) => 7
      case Awarding(_) => 6
      case Resigning => 5
      case Conceding => 4
  }

  function AheadOf(s: Race, r: Role): nat {
    Ahead(At(s.base, r), StageOf(s, r))
  }

  /** A thread past its move or resignation is done with TurnBaton. */
  predicate Calm(s: Race) {
    && Shape(s.base) && (s.first != Apart ==> s.base.first.Idle?) && (s.second != Apart ==> s.base.second.Idle?)
  }

  lemma PlaceDown(b: State, r: Role)
    requires Shape(b) && r != NullRole
    ensures var b', p := TurnBaton.Step(b, Continue(r)), At(b, r);
            && At(b', Opponent(r)) == At(b, Opponent(r))
            && (After(p) != Apart ==> At(b', r).Idle?)
            && if p.Idle? then b' == b else Ahead(At(b', r), After(p)) < Ahead(p, Apart)
  {
  }

  lemma FinishDown(s: Race, r: Role)
    requires Shape(s.base) && r != NullRole && StageOf(s, r) != Apart && At(s.base, r).Idle?
    ensures AheadOf(Finish(s, r), r) < AheadOf(s, r) && AheadOf(Finish(s, r), Opponent(r)) == AheadOf(s, Opponent(r))
    ensures Finish(s, r).base == s.base
  {
  }

  /** No thread ever waits in the middle of a request: each of its steps brings it nearer to the end. */
  lemma StepsDown(s: Race, r: Role)
    requires Calm(s) && r != NullRole
    ensures var s' := Advance(s, Continue(r));
            && Calm(s') && s'.base == TurnBaton.Step(s.base, Continue(r))
            && AheadOf(s', Opponent(r)) == AheadOf(s, Opponent(r))
            && if AheadOf(s, r) == 0 then s' == s else AheadOf(s', r) < AheadOf(s, r)
  {
    PlaceDown(s.base, r);
    if StageOf(s, r) == Apart {
      assert Advance(s, Continue(r)) == To(s.(base := TurnBaton.Step(s.base, Continue(r))), r, After(At(s.base, r)));
    } else {
      FinishDown(s, r);
    }
  }

  lemma StepPosts(s: Race, r: Role)
    requires Calm(s) && r != NullRole
    ensures var s' := Advance(s, Continue(r));
            s'.posts == s.posts || (s'.posts == s.posts + [(r, s'.base.game.winner)] && AheadOf(s', r) == 0)
  {
  }

  lemma {:induction false} StaysPut(s: Race, r: Role, n: nat)
    requires Calm(s) && r != NullRole && AheadOf(s, r) == 0
    ensures Runs(s, Continues(r, n)) == s
    decreases n
  {
    if n > 0 {
      OnceMore(s, r, n);
      StepsDown(s, r);
      StaysPut(s, r, n - 1);
    }
  }

  /** Whatever else has happened before, a thread gets to the end of its request in as many steps as it has ahead. */
  lemma {:induction false} GetsThrough(s: Race, r: Role, n: nat)
    requires Calm(s) && r != NullRole
    ensures var s' := Runs(s, Continues(r, n));
            && s'.base == TurnBaton.Run(s.base, Continues(r, n)) && AheadOf(s', Opponent(r)) == AheadOf(s, Opponent(r))
            && (n >= AheadOf(s, r) ==> AheadOf(s', r) == 0)
    decreases n
  {
    if n > 0 {
      OnceMore(s, r, n);
      OneMore(s.base, r, n);
      StepsDown(s, r);
      GetsThrough(Advance(s, Continue(r)), r, n - 1);
    }
  }

  /** On its way it posts once at most, the winner there is at the end. */
  lemma {:induction false} PostsOnItsWay(s: Race, r: Role, n: nat)
    requires Calm(s) && r != NullRole
    ensures var s' := Runs(s, Continues(r, n));
            s'.posts == s.posts || s'.posts == s.posts + [(r, s'.base.game.winner)]
    decreases n
  {
    if n > 0 {
      OnceMore(s, r, n);
      StepsDown(s, r);
      StepPosts(s, r);
      var s1 := Advance(s, Continue(r));
      if s1.posts == s.posts {
        PostsOnItsWay(s1, r, n - 1);
      } else {
        StaysPut(s1, r, n - 1);
      }
    }
  }

  function Opening(a: Attempt): Action {
    match a
    case Move(r, c) => Begin(r, c)
    case Resign(r) => GiveUp(r)
  }

  /** One request from its first step to its last. */
  function Entire(a: Attempt): seq<Action> {
    [Opening(a)] + Continues(a.role, 12)
  }

  function AllEntire(attempts: seq<Attempt>): seq<Action> {
    if attempts == [] then [] else Entire(attempts[0]) + AllEntire(attempts[1..])
  }

  /** Nobody is at a request, and a finished game has been posted once, with the right winner. */
  ghost predicate Orderly(s: Race) {
    && Good(s) && Settled(s) && Sound(s.base.game)
    && if s.base.game.over then |s.posts| == 1 && s.posts[0].1 == s.base.game.winner else s.posts == []
  }

  lemma EntireBase(b: State, a: Attempt)
    requires Shape(b) && Sound(b.game) && b.first.Idle? && b.second.Idle? && a.role != NullRole
    ensures var b' := TurnBaton.Run(TurnBaton.Step(b, Opening(a)), Continues(a.role, 12));
            b'.game == TicTacToe.Step(b.game, a) && b'.first.Idle? && b'.second.Idle?
  {
    var n := if a.Move? then 6 else 2;
    assert Whole(a)[1..] == Continues(a.role, n) && Whole(a)[0] == Opening(a);
    WholeAttempt(b, a);
    ContinuesAdd(a.role, n, 12 - n);
    var b1 := TurnBaton.Step(b, Opening(a));
    RunAppend(b1, Continues(a.role, n), Continues(a.role, 12 - n));
    IdleStays(TurnBaton.Run(b, Whole(a)), a.role, 12 - n);
  }

  lemma OpeningStep(s: Race, a: Attempt)
    requires Orderly(s) && a.role != NullRole
    ensures var s1 := Advance(s, Opening(a));
            && Good(s1) && s1.posts == s.posts && AheadOf(s1, a.role) <= 12 && AheadOf(s1, Opponent(a.role)) == 0
            && (s.base.game.over ==> s1 == s)
            && (!s.base.game.over ==> s1.base == TurnBaton.Step(s.base, Opening(a)))
  {
    AdvanceGood(s, Opening(a));
    if s.base.game.over {
      assert HasPosted(s, s.posts[0].0);
    }
  }

  lemma EntireRequest(s: Race, a: Attempt)
    requires Orderly(s) && a.role != NullRole
    ensures Orderly(Runs(s, Entire(a))) && Runs(s, Entire(a)).base.game == TicTacToe.Step(s.base.game, a)
  {
    var r, s1 := a.role, Advance(s, Opening(a));
    assert Entire(a)[1..] == Continues(r, 12);
    OpeningStep(s, a);
    StepSound(s.base.game, a);
    if s.base.game.over {
      StaysPut(s, r, 12);
    } else {
      GetsThrough(s1, r, 12);
      PostsOnItsWay(s1, r, 12);
      EntireBase(s.base, a);
      RunsGood(s1, Continues(r, 12));
      SettledPosts(Runs(s1, Continues(r, 12)));
    }
  }

  lemma SettledPosts(s: Race)
    requires Good(s) && Settled(s)
    ensures s.base.game.over <==> s.posts != []
  {
    if s.posts != [] {
      assert HasPosted(s, s.posts[0].0);
    }
  }

  /** Requests that do not overlap post the result of a finished game exactly once, with the right winner. */
  lemma {:induction false} SerialPosts(s: Race, attempts: seq<Attempt>)
    requires Orderly(s) && forall k :: 0 <= k < |attempts| ==> attempts[k].role != NullRole
    ensures var s' := Runs(s, AllEntire(attempts));
            Orderly(s') && s'.base.game == TicTacToe.Run(s.base.game, attempts)
    decreases |attempts|
  {
    if attempts != [] {
      RunsAppend(s, Entire(attempts[0]), AllEntire(attempts[1..]));
      EntireRequest(s, attempts[0]);
      SerialPosts(Runs(s, Entire(attempts[0])), attempts[1..]);
    }
  }

  // ---------------------------------------------------------------- two posts, and one wrong one

  /** A position with a thread at Looking and the other at a stage; nothing has been removed or posted. */
  predicate Poised(s: Race, g: Ttt, p: Place, t: Stage) {
    && s.base.game == g && |g.cells| == 9 && s.base.first.Idle? && s.base.second == p && s.first == Looking
    && s.second == t && s.inFirst && s.inSecond && s.posts == []
  }

  /** X on 3 and 4, O on 0 and 1; then X moves on 8, sends MOVED, and has not looked at the status yet. */
  lemma MoverWaits() returns (actions: seq<Action>)
    ensures Poised(Runs(Kickoff(), actions),
      Ttt([O, O, Blank, X, X, Blank, Blank, Blank, X], Second, false, NullRole, false),
                   Idle, Apart)
  {
    var four := [Attempt.Move(First, 3), Attempt.Move(Second, 0), Attempt.Move(First, 4), Attempt.Move(Second, 1)];
    actions := AllEntire(four) + ([Begin(First, 8)] + Continues(First, 6));
    RunsAppend(Kickoff(), AllEntire(four), [Begin(First, 8)] + Continues(First, 6));
    BlankBoardSound(Initial());
    KickoffGood();
    SerialPosts(Kickoff(), four);
    FourMoves();
    MovesOn8(Runs(Kickoff(), AllEntire(four)));
  }

  lemma GetsToFree(s: Race, r: Role, c: nat, n: nat)
    requires Shape(s.base) && r != NullRole && At(s.base, r).Idle? && StageOf(s, r) == Apart && Own(s, r)
    requires s.base.game.turn == r && !s.base.game.over && c < 9 && s.base.game.cells[c] == Blank
    ensures Runs(s, [Begin(r, c)] + Continues(r, n + 2))
         == Runs(s.(base := TurnBaton.Next(s.base, r, Free(c), s.base.game)), Continues(r, n))
  {
    assert ([Begin(r, c)] + Continues(r, n + 2))[1..] == Continues(r, n + 2);
    var s1 := s.(base := TurnBaton.Next(s.base, r, Parsed(c), s.base.game));
    assert Advance(s, Begin(r, c)) == s1;
    OnceMore(s1, r, n + 2);
    var s2 := s.(base := TurnBaton.Next(s.base, r, Ongoing(c), s.base.game));
    assert Advance(s1, Continue(r)) == s2;
    OnceMore(s2, r, n + 1);
  }

  lemma MovesOn8(s: Race)
    requires Good(s) && Settled(s) && s.posts == []
    requires s.base.game == Ttt([O, O, Blank, X, X, Blank, Blank, Blank, Blank], First, false, NullRole, false)
    ensures Poised(Runs(s, [Begin(First, 8)] + Continues(First, 6)),
                   Ttt([O, O, Blank, X, X, Blank, Blank, Blank, X], Second, false, NullRole, false), Idle, Apart)
  {
    GetsToFree(s, First, 8, 4);
    var s3 := s.(base := TurnBaton.Next(s.base, First, Free(8), s.base.game));
    OnceMore(s3, First, 4);
    WritesOn8(s3.base);
    FromMarked(Advance(s3, Continue(First)), First);
  }

  lemma WritesOn8(b: State)
    requires b.first == Free(8)
    requires b.game == Ttt([O, O, Blank, X, X, Blank, Blank, Blank, Blank], First, false, NullRole, false)
    ensures var b' := Write(b, First, 8);
            b'.first == Marked(GoesOn) && b'.game == b.game.(cells := [O, O, Blank, X, X, Blank, Blank, Blank, X])
  {
    assert b.game.cells[8 := X] == [O, O, Blank, X, X, Blank, Blank, Blank, X];
    assert b.game.cells[8] == Blank && b.game.cells[8 := X][2] == Blank;
  }

  /** A mark that decides nothing: the turn is given away, and the opponent told. */
  lemma FromMarked(s: Race, r: Role)
    requires Shape(s.base) && r != NullRole && At(s.base, r) == Marked(GoesOn) && StageOf(s, r) == Apart
      && Own(s, Opponent(r))
    ensures Runs(s, Continues(r, 3))
         == To(s, r, Looking).(base := TurnBaton.Next(s.base, r, Idle, s.base.game.(turn := Opponent(r))))
  {
    OnceMore(s, r, 3);
    var s1 := Advance(s, Continue(r));
    OnceMore(s1, r, 2);
    OnceMore(Advance(s1, Continue(r)), r, 1);
  }

  /** O completes 0-1-2 and sets the status, but not the winner yet. */
  lemma OpponentWins(s: Race)
    requires Poised(s, Ttt([O, O, Blank, X, X, Blank, Blank, Blank, X], Second, false, NullRole, false), Idle, Apart)
    ensures Poised(Runs(s, [Begin(Second, 2)] + Continues(Second, 5)),
                   Ttt([O, O, O, X, X, Blank, Blank, Blank, X], First, true, NullRole, false), Awarding(O), Apart)
  {
    GetsToFree(s, Second, 2, 3);
    var s3 := s.(base := TurnBaton.Next(s.base, Second, Free(2), s.base.game));
    OnceMore(s3, Second, 3);
    WritesOn2(s3.base);
    FromLine(Advance(s3, Continue(Second)), Second, O);
  }

  lemma WritesOn2(b: State)
    requires b.second == Free(2)
    requires b.game == Ttt([O, O, Blank, X, X, Blank, Blank, Blank, X], Second, false, NullRole, false)
    ensures var b' := Write(b, Second, 2);
            b'.second == Marked(Line(O)) && b'.game == b.game.(cells := [O, O, O, X, X, Blank, Blank, Blank, X])
  {
    assert b.game.cells[2 := O] == [O, O, O, X, X, Blank, Blank, Blank, X];
    assert b.game.cells[2] == Blank;
  }

  /** A mark that completes a line: the turn is given away, and the status set. */
  lemma FromLine(s: Race, r: Role, m: Mark)
    requires Shape(s.base) && r != NullRole && At(s.base, r) == Marked(Line(m)) && StageOf(s, r) == Apart
    ensures Runs(s, Continues(r, 2))
         == s.(base := TurnBaton.Next(s.base, r, Awarding(m), s.base.game.(turn := Opponent(r), over := true)))
  {
    OnceMore(s, r, 2);
    OnceMore(Advance(s, Continue(r)), r, 1);
  }

  /** A thread at Looking in a finished game, alone: both tables lose the invitation, and the winner is posted. */
  lemma LooksAndPosts(s: Race, r: Role)
    requires Shape(s.base) && r != NullRole && StageOf(s, r) == Looking && s.base.game.over
    ensures Runs(s, Continues(r, 4))
         == To(s, r, Apart).(inFirst := false, inSecond := false, posts := s.posts + [(r, s.base.game.winner)])
  {
    var s1 := Advance(s, Continue(r));
    OnceMore(s, r, 4);
    var s2 := Advance(s1, Continue(r));
    OnceMore(s1, r, 3);
    var s3 := Advance(s2, Continue(r));
    OnceMore(s2, r, 2);
    OnceMore(s3, r, 1);
  }

  lemma SecondStep(s: Race)
    requires Shape(s.base) && s.base.second == Awarding(O) && s.second == Apart
    ensures Runs(s, Continues(Second, 2))
         == s.(base := s.base.(second := Idle, game := s.base.game.(winner := Second)), second := if s.inFirst then
             Looking
           else Apart)
  {
    OnceMore(s, Second, 2);
    OnceMore(Advance(s, Continue(Second)), Second, 1);
  }

  /** The opponent has won, but not set the winner, before the mover looks at the status. */
  lemma WonMeanwhile() returns (actions: seq<Action>)
    ensures Poised(Runs(Kickoff(), actions), Ttt([O, O, O, X, X, Blank, Blank, Blank, X], First, true, NullRole, false),
                   Awarding(O), Apart)
  {
    var before := MoverWaits();
    actions := before + ([Begin(Second, 2)] + Continues(Second, 5));
    RunsAppend(Kickoff(), before, [Begin(Second, 2)] + Continues(Second, 5));
    OpponentWins(Runs(Kickoff(), before));
  }

  /** A run after which the result of one game has been posted twice. */
  lemma ResultPostedTwice() returns (actions: seq<Action>)
    ensures var s := Runs(Kickoff(), actions);
            Settled(s) && s.base.game.winner == Second && s.posts == [(First, Second), (Second, Second)]
  {
    var before := WonMeanwhile();
    var s := Runs(Kickoff(), before);
    actions := before + (Continues(Second, 2) + (Continues(First, 4) + Continues(Second, 4)));
    RunsAppend(Kickoff(), before, Continues(Second, 2) + (Continues(First, 4) + Continues(Second, 4)));
    RunsAppend(s, Continues(Second, 2), Continues(First, 4) + Continues(Second, 4));
    SecondStep(s);
    BothPost(Runs(s, Continues(Second, 2)));
  }

  lemma BothPost(s: Race)
    requires Shape(s.base) && s.first == Looking && s.second == Looking && s.base.game.over
    ensures Runs(s, Continues(First, 4) + Continues(Second, 4))
         == s.(first := Apart, second := Apart, inFirst := false, inSecond := false,
               posts := s.posts + [(First, s.base.game.winner)] + [(Second, s.base.game.winner)])
  {
    RunsAppend(s, Continues(First, 4), Continues(Second, 4));
    LooksAndPosts(s, First);
    LooksAndPosts(Runs(s, Continues(First, 4)), Second);
  }

  /** A run after which a game that was won has been posted once, as a draw. */
  lemma WinPostedAsDraw() returns (actions: seq<Action>)
    ensures var s := Runs(Kickoff(), actions);
            Settled(s) && s.base.game.winner == Second && s.posts == [(First, NullRole)]
  {
    var before := WonMeanwhile();
    var s := Runs(Kickoff(), before);
    actions := before + (Continues(First, 4) + Continues(Second, 2));
    RunsAppend(Kickoff(), before, Continues(First, 4) + Continues(Second, 2));
    RunsAppend(s, Continues(First, 4), Continues(Second, 2));
    LooksAndPosts(s, First);
    SecondStep(Runs(s, Continues(First, 4)));
  }
}
