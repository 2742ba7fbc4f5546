/**
 The two players' threads on one game, a step at a time (src/game.c:248-326, 400-423,
 src/client.c:705-719): the turn is looked at when a move is parsed; the status, the cell, the mark,
 the new turn, the new status and the winner are read and written one after the other, each under a
 mutex of its own.

 There is one thread per role, because a client's requests are served by one thread.
 */
module TurnBaton {
  import opened Roles
  import opened TicTacToe
  import opened Games

  /** What apply_and_verify_safe returns: nothing yet, a full board, or somebody's line. */
  datatype Verdict = GoesOn | Draw | Line(mark: Mark)

  datatype Place =
    | Idle
    | Parsed(cell: nat)          // it was this role's turn
    | Ongoing(cell: nat)         // the game was not over
    | Free(cell: nat)            // the cell was blank
    | Marked(verdict: Verdict)   // has written its mark
    | Flipped(verdict: Verdict)  // has given the turn away
    | Awarding(mark: Mark)       // has set the status, will set the winner
    | Resigning                  // the game was not over
    | Conceding                  // has set the status, will set the winner

  datatype Action = Begin(role: Role, cell: nat) | GiveUp(role: Role) | Continue(role: Role)

  /** `marks` is history: who marked which cell, in order. */
  datatype State = State(game: Ttt, first: Place, second: Place, marks: seq<(Role, nat)>)

  function At(s: State, r: Role): Place {
    if r == First then s.first else s.second
  }

  function Next(s: State, r: Role, p: Place, game: Ttt): State {
    if r == First then State(game, p, s.second, s.marks) else State(game, s.first, p, s.marks)
  }

  predicate Shape(s: State) {
    |s.game.cells| == 9
  }

  function Verify(cells: seq<Mark>): Verdict
    requires |cells| == 9
  {
    if FirstLine(cells) != Blank then Line(FirstLine(cells)) else if Full(cells) then Draw else GoesOn
  }

  /** apply_and_verify_safe, which holds the mutex of the board throughout. */
  function Write(s: State, r: Role, c: nat): (s': State)
    requires Shape(s)
    ensures Shape(s')
  {
    if Full(s.game.cells) || c >= 9 then Next(s, r, Marked(Draw), s.game)
    else
      var cells := s.game.cells[c := MarkOf(r)];
      Next(s, r, Marked(Verify(cells)), s.game.(cells := cells)).(marks := s.marks + [(r, c)])
  }

  /** Every other step of a thread that is not idle: its next place, and the game. */
  function Proceed(g: Ttt, r: Role, p: Place): (next: (Place, Ttt))
    requires |g.cells| == 9
    ensures next.1.cells == g.cells
  {
    match p
    case Parsed(c) => (if g.over then Idle else Ongoing(c), g)
    case Ongoing(c) => (if c < 9 && g.cells[c] == Blank then Free(c) else Idle, g)
    case Marked(v) => (Flipped(v), g.(turn := Opponent(r)))
    case Flipped(v) =>
      (match v case Line(m) => Awarding(m) case _ => Idle, if v == GoesOn then g else g.(over := true))
    case Awarding(m) => (Idle, g.(winner := if m == X then First else Second))
    case Resigning => (Conceding, g.(over := true, resigned := true))
    case Conceding => (Idle, g.(winner := Opponent(r)))
    case _ => (p, g)
  }

  predicate Writes(s: State, a: Action) {
    a.role != NullRole && a.Continue? && At(s, a.role).Free?
  }

  /** The thread's next place, and the game, for an action that writes no mark; what is not possible does not happen. */
  function Quiet(g: Ttt, p: Place, a: Action): (next: (Place, Ttt))
    requires |g.cells| == 9
    ensures next.1.cells == g.cells
  {
    match a
    case Begin(r, cell) => if p == Idle && g.turn == r && cell < 9 then (Parsed(cell), g) else (p, g)
    case GiveUp(r) => if p == Idle && !g.over then (Resigning, g) else (p, g)
    case Continue(r) => Proceed(g, r, p)
  }

  function Step(s: State, a: Action): (s': State)
    requires Shape(s)
    ensures Shape(s')
    ensures !Writes(s, a) ==> s'.marks == s.marks && s'.game.cells == s.game.cells
  {
    if a.role == NullRole then s
    else if Writes(s, a) then Write(s, a.role, At(s, a.role).cell)
    else
      var (p, g) := Quiet(s.game, At(s, a.role), a);
      Next(s, a.role, p, g)
  }

  function Run(s: State, actions: seq<Action>): (r: State)
    requires Shape(s)
    ensures Shape(r)
    decreases |actions|
  {
    if actions == [] then s else Run(Step(s, actions[0]), actions[1..])
  }

  function Start(): State {
    State(Initial(), Idle, Idle, [])
  }

  // ---------------------------------------------------------------- the invariant

  /** Between a successful parse and the flip of the turn. */
  predicate HasBaton(p: Place) {
    p.Parsed? || p.Ongoing? || p.Free? || p.Marked?
  }

  function Mover(k: nat): Role {
    if k % 2 == 0 then First else Second
  }

  /** The board that the marks make. */
  ghost function Laid(marks: seq<(Role, nat)>): (cells: seq<Mark>)
    ensures |cells| == 9
  {
    if marks == [] then Initial().cells
    else
      var (r, c) := marks[|marks| - 1];
      var before := Laid(marks[..|marks| - 1]);
      if c < 9 then before[c := MarkOf(r)] else before
  }

  predicate HasLine(cells: seq<Mark>)
    requires |cells| == 9
  {
    FirstLine(cells) != Blank
  }

  /** There was a line already before the last n marks. */
  ghost predicate LineBefore(marks: seq<(Role, nat)>, n: nat) {
    n < |marks| && HasLine(Laid(marks[..|marks| - n]))
  }

  ghost predicate MarkOk(cells: seq<Mark>, marks: seq<(Role, nat)>, k: nat)
    requires |cells| == 9 && k < |marks|
  {
    marks[k].0 == Mover(k) && marks[k].1 < 9 && cells[marks[k].1] == MarkOf(marks[k].0)
  }

  /** The board is what the marks make it; they alternate, each on its own cell, at most one of them after a line. */
  ghost predicate History(cells: seq<Mark>, marks: seq<(Role, nat)>)
    requires |cells| == 9
  {
    && cells == Laid(marks)
    && (forall k {:trigger MarkOk(cells, marks, k)} :: 0 <= k < |marks| ==> MarkOk(cells, marks, k))
    && (forall k, l :: 0 <= k < l < |marks| ==> marks[k].1 != marks[l].1)
    && !LineBefore(marks, 2)
  }

  /** What the threads' places depend on: how the board looks, whose lines are there, and was one there a mark ago. */
  datatype Facts = Facts(verdict: Verdict, ownX: bool, ownO: bool, before: bool, n: nat)

  ghost function FactsOf(cells: seq<Mark>, marks: seq<(Role, nat)>): Facts
    requires |cells| == 9
  {
    Facts(Verify(cells), OwnsLine(cells, X), OwnsLine(cells, O), LineBefore(marks, 1), |marks|)
  }

  predicate Owns(f: Facts, m: Mark) {
    (m == X && f.ownX) || (m == O && f.ownO)
  }

  ghost predicate PlaceOk(g: Ttt, r: Role, p: Place, f: Facts)
    requires |g.cells| == 9
  {
    && (HasBaton(p) ==> g.turn == r)
    && (p.Free? ==> p.cell < 9 && g.cells[p.cell] == Blank)
    // whoever is past the look at the status looked before a line could be two marks old
    && (p.Ongoing? || p.Free? ==> !f.before)
    && (p.Marked? || p.Flipped? ==> p.verdict.Line? ==> Owns(f, p.verdict.mark))
    && (p.Marked? || p.Flipped? ==> p.verdict != GoesOn ==> f.verdict != GoesOn)
    && (p.Awarding? ==> Owns(f, p.mark))
    && (p.Conceding? ==> g.resigned)
  }

  /** p is where the player who marked last is, q where the other one is. */
  ghost predicate LastOk(g: Ttt, p: Place, q: Place, f: Facts) {
    && (p.Marked? || p.Flipped? ==> p.verdict == f.verdict)
    && (!g.over && f.verdict != GoesOn ==> p.Marked? || p.Flipped?)
    && (f.verdict.Line? && g.winner == NullRole ==> p.Marked? || p.Flipped? || p.Awarding?)
    // a line one mark old that has not ended the game: the one who completed it has flipped the turn
    && (!g.over && f.before ==> f.verdict.Line? && q.Flipped? && q.verdict.Line?)
    && !q.Marked?
    && (f.n == 0 ==> f.verdict == GoesOn && !f.before && !p.Marked?)
    && (g.over ==> g.resigned || f.verdict != GoesOn)
    && (g.resigned ==> g.over && (g.winner != NullRole || p.Conceding? || q.Conceding?))
    && (g.winner != NullRole ==> g.resigned || Owns(f, MarkOf(g.winner)))
  }

  ghost predicate ThreadsOk(g: Ttt, first: Place, second: Place, f: Facts)
    requires |g.cells| == 9
  {
    && PlaceOk(g, First, first, f) && PlaceOk(g, Second, second, f)
    && g.turn == Mover(if first.Marked? || second.Marked? then f.n + 1 else f.n)
    && if f.n % 2 == 1 then LastOk(g, first, second, f) else LastOk(g, second, first, f)
  }

  lemma FirstSteps(g: Ttt, p: Place, q: Place, f: Facts, a: Action)
    requires |g.cells| == 9 && ThreadsOk(g, p, q, f) && a.role == First && !(a.Continue? && p.Free?)
    ensures var (p', g') := Quiet(g, p, a); ThreadsOk(g', p', q, f)
  {
  }

  lemma SecondSteps(g: Ttt, p: Place, q: Place, f: Facts, a: Action)
    requires |g.cells| == 9 && ThreadsOk(g, p, q, f) && a.role == Second && !(a.Continue? && q.Free?)
    ensures var (q', g') := Quiet(g, q, a); ThreadsOk(g', p, q', f)
  {
  }

  ghost predicate Inv(s: State) {
    Shape(s) && History(s.game.cells, s.marks) && ThreadsOk(s.game, s.first, s.second, FactsOf(s.game.cells, s.marks))
  }

  /** What one more mark on a blank cell does to the facts. */
  predicate Grows(f: Facts, f': Facts) {
    && f'.n == f.n + 1
    && (f.ownX ==> f'.ownX) && (f.ownO ==> f'.ownO)
    && (f'.before ==> f.verdict.Line?)
    && (f.verdict.Line? ==> f'.verdict.Line?)
    && (f.verdict != GoesOn ==> f'.verdict != GoesOn)
    && (f'.verdict.Line? ==> Owns(f', f'.verdict.mark))
  }

  lemma LinesStay(cells: seq<Mark>, c: nat, r: Role)
    requires |cells| == 9 && c < 9 && cells[c] == Blank
    ensures var cells' := cells[c := MarkOf(r)];
            && (OwnsLine(cells, X) ==> OwnsLine(cells', X)) && (OwnsLine(cells, O) ==> OwnsLine(cells', O))
            && (HasLine(cells) ==> HasLine(cells'))
  {
    FirstLineFinds(cells);
    FirstLineFinds(cells[c := MarkOf(r)]);
  }

  lemma HistoryGrows(cells: seq<Mark>, marks: seq<(Role, nat)>, c: nat)
    requires |cells| == 9 && History(cells, marks) && c < 9 && cells[c] == Blank && !LineBefore(marks, 1)
    ensures var r := Mover(|marks|);
            var cells', marks' := cells[c := MarkOf(r)], marks + [(r, c)];
            History(cells', marks') && (LineBefore(marks', 1) ==> HasLine(cells))
  {
    var r, n := Mover(|marks|), |marks|;
    var cells', marks' := cells[c := MarkOf(r)], marks + [(r, c)];
    assert marks'[..n] == marks;
    if n > 0 {
      assert marks'[..n - 1] == marks[..n - 1];
    }
    forall k | 0 <= k < |marks'|
      ensures MarkOk(cells', marks', k) && (k < n ==> marks[k].1 != c)
    {
      assert k < n ==> MarkOk(cells, marks, k);
    }
  }

  lemma FactsGrow(cells: seq<Mark>, marks: seq<(Role, nat)>, c: nat)
    requires |cells| == 9 && History(cells, marks) && c < 9 && cells[c] == Blank && !LineBefore(marks, 1)
    ensures var r := Mover(|marks|);
            Grows(FactsOf(cells, marks), FactsOf(cells[c := MarkOf(r)], marks + [(r, c)]))
  {
    HistoryGrows(cells, marks, c);
    LinesStay(cells, c, Mover(|marks|));
    FirstLineFinds(cells[c := MarkOf(Mover(|marks|))]);
  }

  lemma WriteKeeps(g: Ttt, first: Place, second: Place, r: Role, f: Facts, g': Ttt, f': Facts)
    requires |g.cells| == 9 && ThreadsOk(g, first, second, f) && r != NullRole && Grows(f, f')
    requires (if r == First then first else second).Free?
    requires |g'.cells| == 9 && g' == g.(cells := g'.cells)
    ensures r == g.turn == Mover(f.n) && !HasBaton(if r == First then second else first)
    ensures ThreadsOk(g', if r == First then Marked(f'.verdict) else first, if r == First then second
      else Marked(f'.verdict), f')
  {
  }

  /**
   The thread that writes is the one whose turn it is, and the cell it found blank is still blank: no
   mark is ever overwritten, and marks alternate.
   */
  lemma WriteIsSafe(s: State, r: Role)
    requires Inv(s) && r != NullRole && At(s, r).Free?
    ensures var c := At(s, r).cell;
            && c < 9 && s.game.cells[c] == Blank && s.game.turn == r == Mover(|s.marks|)
            && !HasBaton(At(s, Opponent(r))) && !LineBefore(s.marks, 1)
            && Write(s, r, c).game.cells == s.game.cells[c := MarkOf(r)] && Write(s, r, c).marks == s.marks + [(r, c)]
  {
  }

  lemma WriteInv(s: State, r: Role)
    requires Inv(s) && r != NullRole && At(s, r).Free?
    ensures Inv(Write(s, r, At(s, r).cell))
  {
    WriteIsSafe(s, r);
    var c := At(s, r).cell;
    var s' := Write(s, r, c);
    HistoryGrows(s.game.cells, s.marks, c);
    FactsGrow(s.game.cells, s.marks, c);
    WriteKeeps(s.game, s.first, s.second, r, FactsOf(s.game.cells, s.marks), s'.game, FactsOf(s'.game.cells, s'.marks));
  }

  lemma QuietInv(s: State, a: Action)
    requires Inv(s) && a.role != NullRole && !Writes(s, a)
    ensures Inv(Step(s, a))
  {
    if a.role == First {
      FirstSteps(s.game, s.first, s.second, FactsOf(s.game.cells, s.marks), a);
    } else {
      SecondSteps(s.game, s.first, s.second, FactsOf(s.game.cells, s.marks), a);
    }
  }

  lemma StepInv(s: State, a: Action)
    requires Inv(s)
    ensures Inv(Step(s, a))
  {
    if a.role != NullRole {
      if Writes(s, a) {
        WriteInv(s, a.role);
      } else {
        QuietInv(s, a);
      }
    }
  }

  lemma StartInv()
    ensures Inv(Start())
  {
  }

  lemma {:induction false} RunInv(s: State, actions: seq<Action>)
    requires Inv(s)
    ensures Inv(Run(s, actions))
    decreases |actions|
  {
    if actions != [] {
      StepInv(s, actions[0]);
      RunInv(Step(s, actions[0]), actions[1..]);
    }
  }

  // ---------------------------------------------------------------- theorems

  lemma Reached(actions: seq<Action>)
    ensures Inv(Run(Start(), actions))
  {
    StartInv();
    RunInv(Start(), actions);
  }

  /** In every interleaving only the player whose turn it is is between a successful parse and the flip. */
  lemma OnlyTheTurnHoldsTheBaton(actions: seq<Action>, r: Role)
    requires r != NullRole && HasBaton(At(Run(Start(), actions), r))
    ensures Run(Start(), actions).game.turn == r && !HasBaton(At(Run(Start(), actions), Opponent(r)))
  {
    Reached(actions);
  }

  lemma Alternating(cells: seq<Mark>, marks: seq<(Role, nat)>)
    requires |cells| == 9 && History(cells, marks)
    ensures forall k :: 0 <= k < |marks| ==>
      marks[k].0 == Mover(k) && marks[k].1 < 9 && cells[marks[k].1] == MarkOf(Mover(k))
  {
    forall k | 0 <= k < |marks|
      ensures marks[k].0 == Mover(k) && marks[k].1 < 9 && cells[marks[k].1] == MarkOf(Mover(k))
    {
      assert MarkOk(cells, marks, k);
    }
  }

  /** Marks alternate, beginning with the first player's, and each is on a cell of its own, where it still stands. */
  lemma MarksAlternate(actions: seq<Action>)
    ensures var s := Run(Start(), actions);
            && (forall k :: 0 <= k < |s.marks| ==>
                  s.marks[k].0 == Mover(k) && s.marks[k].1 < 9 && s.game.cells[s.marks[k].1] == MarkOf(Mover(k)))
            && (forall k, l :: 0 <= k < l < |s.marks| ==> s.marks[k].1 != s.marks[l].1)
  {
    Reached(actions);
    Alternating(Run(Start(), actions).game.cells, Run(Start(), actions).marks);
  }

  lemma StepOnward(s: State, a: Action)
    requires Inv(s)
    ensures s.marks <= Step(s, a).marks
    ensures forall c :: 0 <= c < 9 && s.game.cells[c] != Blank ==> Step(s, a).game.cells[c] == s.game.cells[c]
  {
    if Writes(s, a) {
      WriteIsSafe(s, a.role);
    }
  }

  /** A mark once written stays. */
  lemma {:induction false} MarksStay(s: State, actions: seq<Action>)
    requires Inv(s)
    ensures s.marks <= Run(s, actions).marks
    ensures forall c :: 0 <= c < 9 && s.game.cells[c] != Blank ==> Run(s, actions).game.cells[c] == s.game.cells[c]
    decreases |actions|
  {
    if actions != [] {
      StepInv(s, actions[0]);
      StepOnward(s, actions[0]);
      MarksStay(Step(s, actions[0]), actions[1..]);
    }
  }

  /** When a mark has followed a line, no thread is past its look at the status, and none gets past it again. */
  lemma {:induction false} NoMoreMarks(s: State, actions: seq<Action>)
    requires Inv(s) && LineBefore(s.marks, 1)
    ensures Run(s, actions).marks == s.marks
    decreases |actions|
  {
    if actions != [] {
      if Writes(s, actions[0]) {
        WriteIsSafe(s, actions[0].role);
      }
      StepInv(s, actions[0]);
      NoMoreMarks(Step(s, actions[0]), actions[1..]);
    }
  }

  lemma LineThenMark(s: State, a: Action)
    requires Inv(s) && HasLine(s.game.cells) && Writes(s, a)
    ensures |Step(s, a).marks| == |s.marks| + 1 && LineBefore(Step(s, a).marks, 1)
  {
    WriteIsSafe(s, a.role);
    assert Step(s, a).marks[..|s.marks|] == s.marks;
  }

  /** A finished line can be followed by one more mark, never by two. */
  lemma {:induction false} AtMostOneMarkAfterALine(s: State, actions: seq<Action>)
    requires Inv(s) && HasLine(s.game.cells)
    ensures |Run(s, actions).marks| <= |s.marks| + 1
    decreases |actions|
  {
    if actions != [] {
      var s' := Step(s, actions[0]);
      StepInv(s, actions[0]);
      if Writes(s, actions[0]) {
        LineThenMark(s, actions[0]);
        NoMoreMarks(s', actions[1..]);
      } else {
        AtMostOneMarkAfterALine(s', actions[1..]);
      }
    }
  }

  /**
   Exactly when that one mark gets by: a player who is about to look at the status of a game not yet
   over has a line in front of him if and only if the other one has flipped the turn after completing
   it and has not set the status yet.
   */
  lemma LineSeenAsOngoing(actions: seq<Action>, r: Role)
    requires r != NullRole && At(Run(Start(), actions), r).Parsed? && !Run(Start(), actions).game.over
    ensures var s := Run(Start(), actions);
            HasLine(s.game.cells) <==> At(s, Opponent(r)).Flipped? && At(s, Opponent(r)).verdict.Line?
  {
    Reached(actions);
  }

  /**
   When both threads are idle: the game is over exactly when there is a line, a full board or a resignation;
   it has a winner exactly when there is a line or a resignation; and whoever won without a resignation
   owns a line.
   */
  lemma SettledGame(actions: seq<Action>)
    requires Run(Start(), actions).first.Idle? && Run(Start(), actions).second.Idle?
    ensures var g := Run(Start(), actions).game;
            && (g.over <==> HasLine(g.cells) || Full(g.cells) || g.resigned)
            && (g.winner != NullRole <==> HasLine(g.cells) || g.resigned)
            && (g.winner != NullRole && !g.resigned ==> OwnsLine(g.cells, MarkOf(g.winner)))
  {
    Reached(actions);
  }

  // ---------------------------------------------------------------- one attempt at a time

  function Continues(r: Role, n: nat): (actions: seq<Action>)
    ensures |actions| == n
  {
    if n == 0 then [] else [Continue(r)] + Continues(r, n - 1)
  }

  /** One attempt from its first step to its last. */
  function Whole(a: Attempt): seq<Action> {
    match a
    case Move(r, c) => [Begin(r, c)] + Continues(r, 6)
    case Resign(r) => [GiveUp(r)] + Continues(r, 2)
  }

  lemma {:induction false} IdleStays(s: State, r: Role, n: nat)
    requires Shape(s) && At(s, r).Idle?
    ensures Run(s, Continues(r, n)) == s
  {
    if n > 0 {
      assert Continues(r, n)[1..] == Continues(r, n - 1);
      IdleStays(s, r, n - 1);
    }
  }

  lemma OneMore(s: State, r: Role, n: nat)
    requires Shape(s) && n > 0
    ensures Run(s, Continues(r, n)) == Run(Step(s, Continue(r)), Continues(r, n - 1))
  {
    assert Continues(r, n)[1..] == Continues(r, n - 1);
  }

  /** Uninterrupted, an attempt is the one step of tic-tac-toe that it is taken for elsewhere. */
  lemma WholeAttempt(s: State, a: Attempt)
    requires Shape(s) && Sound(s.game) && s.first.Idle? && s.second.Idle? && a.role != NullRole
    ensures var s' := Run(s, Whole(a));
            s'.game == TicTacToe.Step(s.game, a) && s'.first.Idle? && s'.second.Idle?
  {
    if a.Move? {
      WholeMove(s, a.role, a.cell);
    } else {
      WholeResignation(s, a.role);
    }
  }

  lemma WholeResignation(s: State, r: Role)
    requires Shape(s) && s.first.Idle? && s.second.Idle? && r != NullRole
    ensures var s' := Run(s, Whole(Attempt.Resign(r)));
            s'.game == TicTacToe.Step(s.game, Attempt.Resign(r)) && s'.first.Idle? && s'.second.Idle?
  {
    var s1 := Step(s, GiveUp(r));
    assert Whole(Attempt.Resign(r))[1..] == Continues(r, 2);
    if s.game.over {
      IdleStays(s, r, 2);
    } else {
      OneMore(s1, r, 2);
      OneMore(Step(s1, Continue(r)), r, 1);
    }
  }

  lemma WholeMove(s: State, r: Role, c: nat)
    requires Shape(s) && Sound(s.game) && s.first.Idle? && s.second.Idle? && r != NullRole
    ensures var s' := Run(s, Whole(Attempt.Move(r, c)));
            s'.game == TicTacToe.Step(s.game, Attempt.Move(r, c)) && s'.first.Idle? && s'.second.Idle?
  {
    assert Whole(Attempt.Move(r, c))[1..] == Continues(r, 6);
    var s1 := Step(s, Begin(r, c));
    if s.game.turn != r || c >= 9 {
      IdleStays(s, r, 6);
    } else {
      OneMore(s1, r, 6);
      var s2 := Step(s1, Continue(r));
      if s.game.over {
        IdleStays(s2, r, 5);
      } else {
        OneMore(s2, r, 5);
        var s3 := Step(s2, Continue(r));
        if s.game.cells[c] != Blank {
          IdleStays(s3, r, 4);
        } else {
          LegalMove(s, r, c, s3);
        }
      }
    }
  }

  lemma LegalMove(s: State, r: Role, c: nat, s3: State)
    requires Shape(s) && Sound(s.game) && s.first.Idle? && s.second.Idle? && r != NullRole && Legal(s.game, r, c)
    requires s3 == Next(s, r, Free(c), s.game)
    ensures var s' := Run(s3, Continues(r, 4));
            s'.game == Play(s.game, r, c) && s'.first.Idle? && s'.second.Idle?
  {
    OneMore(s3, r, 4);
    var s4 := Step(s3, Continue(r));
    LegalWrite(s, r, c, s3);
    AfterWrite(s4, r, Play(s.game, r, c));
  }

  lemma LegalWrite(s: State, r: Role, c: nat, s3: State)
    requires Shape(s) && Sound(s.game) && s.first.Idle? && s.second.Idle? && r != NullRole && Legal(s.game, r, c)
    requires s3 == Next(s, r, Free(c), s.game)
    ensures Written(Step(s3, Continue(r)), r, Play(s.game, r, c))
  {
    OnlyMoverWins(s.game, r, c);
    FirstLineFinds(s.game.cells[c := MarkOf(r)]);
  }

  /** The mark that leads to position g is on the board; turn, status and winner are still to be set. */
  predicate Written(s: State, r: Role, g: Ttt) {
    && |g.cells| == 9 && At(s, r).Marked? && At(s, Opponent(r)).Idle? && r != NullRole
    && s.game.cells == g.cells && g.turn == Opponent(r) && !s.game.over && s.game.winner == NullRole
    && s.game.resigned == g.resigned
    && match At(s, r).verdict
       case GoesOn => !g.over && g.winner == NullRole
       case Draw => g.over && g.winner == NullRole
       case Line(m) => g.over && g.winner == if m == X then First else Second
  }

  lemma AfterWrite(s4: State, r: Role, g: Ttt)
    requires Written(s4, r, g)
    ensures var s' := Run(s4, Continues(r, 3));
            s'.game == g && s'.first.Idle? && s'.second.Idle?
  {
    OneMore(s4, r, 3);
    var s5 := Step(s4, Continue(r));
    OneMore(s5, r, 2);
    var s6 := Step(s5, Continue(r));
    if s6.first.Idle? && s6.second.Idle? {
      IdleStays(s6, r, 1);
    } else {
      OneMore(s6, r, 1);
    }
  }

  lemma {:induction false} RunAppend(s: State, a: seq<Action>, b: seq<Action>)
    requires Shape(s)
    ensures Run(s, a + b) == Run(Run(s, a), b)
    decreases |a|
  {
    if a == [] {
      assert a + b == b;
    } else {
      assert (a + b)[1..] == a[1..] + b;
      RunAppend(Step(s, a[0]), a[1..], b);
    }
  }

  function AllWhole(attempts: seq<Attempt>): seq<Action> {
    if attempts == [] then [] else Whole(attempts[0]) + AllWhole(attempts[1..])
  }

  /** Attempts that do not overlap make a game of tic-tac-toe. */
  lemma {:induction false} WholeAttempts(s: State, attempts: seq<Attempt>)
    requires Shape(s) && Sound(s.game) && s.first.Idle? && s.second.Idle?
    requires forall k :: 0 <= k < |attempts| ==> attempts[k].role != NullRole
    ensures var s' := Run(s, AllWhole(attempts));
            s'.game == TicTacToe.Run(s.game, attempts) && s'.first.Idle? && s'.second.Idle?
    decreases |attempts|
  {
    if attempts != [] {
      RunAppend(s, Whole(attempts[0]), AllWhole(attempts[1..]));
      WholeAttempt(s, attempts[0]);
      StepSound(s.game, attempts[0]);
      WholeAttempts(Run(s, Whole(attempts[0])), attempts[1..]);
    }
  }

  // ---------------------------------------------------------------- the line that comes second

  lemma TwoMoves()
    ensures TicTacToe.Step(TicTacToe.Step(Initial(), Attempt.Move(First, 3)), Attempt.Move(Second, 0))
         == Ttt([O, Blank, Blank, X, Blank, Blank, Blank, Blank, Blank], First, false, NullRole, false)
  {
    var g1 := TicTacToe.Step(Initial(), Attempt.Move(First, 3));
    assert g1.cells[0] == Blank;
    assert g1 == Ttt([Blank, Blank, Blank, X, Blank, Blank, Blank, Blank, Blank], Second, false, NullRole, false);
    var g2 := TicTacToe.Step(g1, Attempt.Move(Second, 0));
    assert g2.cells[2] == Blank && g2.cells == [O, Blank, Blank, X, Blank, Blank, Blank, Blank, Blank];
  }

  lemma TwoMoreMoves(g: Ttt)
    requires g == Ttt([O, Blank, Blank, X, Blank, Blank, Blank, Blank, Blank], First, false, NullRole, false)
    ensures TicTacToe.Step(TicTacToe.Step(g, Attempt.Move(First, 4)), Attempt.Move(Second, 1))
         == Ttt([O, O, Blank, X, X, Blank, Blank, Blank, Blank], First, false, NullRole, false)
  {
    var g1 := TicTacToe.Step(g, Attempt.Move(First, 4));
    assert g1.cells[2] == Blank;
    assert g1 == Ttt([O, Blank, Blank, X, X, Blank, Blank, Blank, Blank], Second, false, NullRole, false);
    var g2 := TicTacToe.Step(g1, Attempt.Move(Second, 1));
    assert g2.cells[2] == Blank && g2.cells == [O, O, Blank, X, X, Blank, Blank, Blank, Blank];
  }

  lemma FourMoves()
    ensures TicTacToe.Run(Initial(),
              [Attempt.Move(First, 3), Attempt.Move(Second, 0), Attempt.Move(First, 4), Attempt.Move(Second, 1)])
         == Ttt([O, O, Blank, X, X, Blank, Blank, Blank, Blank], First, false, NullRole, false)
  {
    TwoMoves();
    TwoMoreMoves(TicTacToe.Step(TicTacToe.Step(Initial(), Attempt.Move(First, 3)), Attempt.Move(Second, 0)));
    RunFour(Initial(), Attempt.Move(First, 3), Attempt.Move(Second, 0), Attempt.Move(First, 4),
        Attempt.Move(Second, 1));
  }

  lemma RunFour(g: Ttt, m0: Attempt, m1: Attempt, m2: Attempt, m3: Attempt)
    requires |g.cells| == 9
    ensures TicTacToe.Run(g, [m0, m1, m2, m3])
         == TicTacToe.Step(TicTacToe.Step(TicTacToe.Step(TicTacToe.Step(g, m0), m1), m2), m3)
  {
    var g1 := TicTacToe.Step(g, m0);
    var g2 := TicTacToe.Step(g1, m1);
    var g3 := TicTacToe.Step(g2, m2);
    assert [m0, m1, m2, m3][1..] == [m1, m2, m3] && [m1, m2, m3][1..] == [m2, m3] && [m2, m3][1..] == [m3];
    assert TicTacToe.Run(g1, [m1, m2, m3]) == TicTacToe.Run(g2, [m2, m3]);
    assert TicTacToe.Run(g2, [m2, m3]) == TicTacToe.Run(g3, [m3]);
    assert TicTacToe.Run(g3, [m3]) == TicTacToe.Run(TicTacToe.Step(g3, m3), []);
  }

  /** A move in turn on a blank cell gets to its write, if nothing comes between. */
  lemma UpToFree(s: State, r: Role, c: nat, n: nat)
    requires Shape(s) && r != NullRole && At(s, r).Idle? && s.game.turn == r && !s.game.over && c < 9
      && s.game.cells[c] == Blank
    ensures Run(s, [Begin(r, c)] + Continues(r, n + 2)) == Run(Next(s, r, Free(c), s.game), Continues(r, n))
  {
    assert ([Begin(r, c)] + Continues(r, n + 2))[1..] == Continues(r, n + 2);
    var s1 := Step(s, Begin(r, c));
    OneMore(s1, r, n + 2);
    OneMore(Step(s1, Continue(r)), r, n + 1);
  }

  lemma XCompletes(s: State)
    requires s.first.Idle? && s.second.Idle?
    requires s.game == Ttt([O, O, Blank, X, X, Blank, Blank, Blank, Blank], First, false, NullRole, false)
    ensures var s' := Run(s, [Begin(First, 5)] + Continues(First, 4));
            && s'.first == Flipped(Line(X)) && s'.second.Idle?
            && s'.game == Ttt([O, O, Blank, X, X, X, Blank, Blank, Blank], Second, false, NullRole, false)
  {
    UpToFree(s, First, 5, 2);
    var s3 := Next(s, First, Free(5), s.game);
    OneMore(s3, First, 2);
    var s4 := Step(s3, Continue(First));
    assert s.game.cells[5 := X] == [O, O, Blank, X, X, X, Blank, Blank, Blank];
    OneMore(s4, First, 1);
  }

  lemma OCompletes(s: State)
    requires s.first == Flipped(Line(X)) && s.second.Idle?
    requires s.game == Ttt([O, O, Blank, X, X, X, Blank, Blank, Blank], Second, false, NullRole, false)
    ensures var s' := Run(s, [Begin(Second, 2)] + Continues(Second, 3));
            && s'.first == Flipped(Line(X)) && s'.second == Marked(Line(O))
            && s'.game == Ttt([O, O, O, X, X, X, Blank, Blank, Blank], Second, false, NullRole, false)
  {
    UpToFree(s, Second, 2, 1);
    OneMore(Next(s, Second, Free(2), s.game), Second, 1);
    assert s.game.cells[2 := O] == [O, O, O, X, X, X, Blank, Blank, Blank];
  }

  lemma XEndsIt(s: State)
    requires Shape(s) && s.first == Flipped(Line(X))
    ensures var s' := Run(s, Continues(First, 2));
            s'.first.Idle? && s'.second == s.second && s'.game.cells == s.game.cells && s'.game.over
  {
    OneMore(s, First, 2);
    OneMore(Step(s, Continue(First)), First, 1);
  }

  lemma OEndsIt(s: State)
    requires Shape(s) && s.second == Marked(Line(O))
    ensures var s' := Run(s, Continues(Second, 3));
            && s'.second.Idle? && s'.first == s.first && s'.game.cells == s.game.cells
            && s'.game.over && s'.game.winner == Second
  {
    OneMore(s, Second, 3);
    var s1 := Step(s, Continue(Second));
    OneMore(s1, Second, 2);
    OneMore(Step(s1, Continue(Second)), Second, 1);
  }

  lemma BothEndIt(s: State)
    requires Shape(s) && s.first == Flipped(Line(X)) && s.second == Marked(Line(O))
    ensures var s' := Run(s, Continues(First, 2) + Continues(Second, 3));
            && s'.first.Idle? && s'.second.Idle? && s'.game.cells == s.game.cells
            && s'.game.over && s'.game.winner == Second
  {
    RunAppend(s, Continues(First, 2), Continues(Second, 3));
    XEndsIt(s);
    OEndsIt(Run(s, Continues(First, 2)));
  }

  /** O completes 0-1-2 before X sets the status and the winner, and then does the same. */
  lemma AfterFirstLine(s: State) returns (actions: seq<Action>)
    requires s.first == Flipped(Line(X)) && s.second.Idle?
    requires s.game == Ttt([O, O, Blank, X, X, X, Blank, Blank, Blank], Second, false, NullRole, false)
    ensures var s' := Run(s, actions);
            && OwnsLine(s'.game.cells, X) && OwnsLine(s'.game.cells, O)
            && s'.first.Idle? && s'.second.Idle? && s'.game.over && s'.game.winner == Second
  {
    actions := ([Begin(Second, 2)] + Continues(Second, 3)) + (Continues(First, 2) + Continues(Second, 3));
    RunAppend(s, [Begin(Second, 2)] + Continues(Second, 3), Continues(First, 2) + Continues(Second, 3));
    OCompletes(s);
    BothEndIt(Run(s, [Begin(Second, 2)] + Continues(Second, 3)));
  }

  /** X on 3 and 4, O on 0 and 1; then X completes 3-4-5 and flips the turn. */
  lemma UpToFirstLine() returns (actions: seq<Action>)
    ensures var s := Run(Start(), actions);
            && s.first == Flipped(Line(X)) && s.second.Idle?
            && s.game == Ttt([O, O, Blank, X, X, X, Blank, Blank, Blank], Second, false, NullRole, false)
  {
    var four := [Attempt.Move(First, 3), Attempt.Move(Second, 0), Attempt.Move(First, 4), Attempt.Move(Second, 1)];
    actions := AllWhole(four) + ([Begin(First, 5)] + Continues(First, 4));
    RunAppend(Start(), AllWhole(four), [Begin(First, 5)] + Continues(First, 4));
    BlankBoardSound(Initial());
    WholeAttempts(Start(), four);
    FourMoves();
    XCompletes(Run(Start(), AllWhole(four)));
  }

  /** Taken apart, the steps let both players own a line, and let the one whose line came second be the winner. */
  lemma SecondLineWins() returns (first: seq<Action>, second: seq<Action>)
    ensures var s := Run(Start(), first);
            var s' := Run(Start(), first + second);
            && OwnsLine(s.game.cells, X) && !OwnsLine(s.game.cells, O)
            && OwnsLine(s'.game.cells, X) && OwnsLine(s'.game.cells, O)
            && s'.first.Idle? && s'.second.Idle? && s'.game.over && s'.game.winner == Second
  {
    first := UpToFirstLine();
    second := AfterFirstLine(Run(Start(), first));
    RunAppend(Start(), first, second);
  }
}
