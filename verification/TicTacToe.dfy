/**
 Abstract tic-tac-toe: nine cells, a turn, and the outcome.

 This is the specification that the character board of src/game.c is proved against
 (module Games).  `resigned` is a history variable: the program does not store it.
 */
module TicTacToe {
  import opened Roles

  datatype Mark = Blank | X | O

  datatype Ttt = Ttt(cells: seq<Mark>, turn: Role, over: bool, winner: Role, resigned: bool)

  /** What a client can try: a move of a role on a cell, or a resignation. */
  datatype Attempt = Move(role: Role, cell: nat) | Resign(role: Role)

  function MarkOf(r: Role): Mark {
    if r == First then X else O
  }

  function Initial(): Ttt {
    Ttt(seq(9, _ => Blank), First, false, NullRole, false)
  }

  predicate Three(cells: seq<Mark>, m: Mark, i: nat, j: nat, k: nat)
    requires |cells| == 9 && i < 9 && j < 9 && k < 9
  {
    cells[i] == m && cells[j] == m && cells[k] == m
  }

  /** The player of mark `m` owns at least one of the eight lines. */
  predicate OwnsLine(cells: seq<Mark>, m: Mark)
    requires |cells| == 9
  {
    || Three(cells, m, 0, 1, 2) || Three(cells, m, 3, 4, 5) || Three(cells, m, 6, 7, 8)
    || Three(cells, m, 0, 3, 6) || Three(cells, m, 1, 4, 7) || Three(cells, m, 2, 5, 8)
    || Three(cells, m, 0, 4, 8) || Three(cells, m, 2, 4, 6)
  }

  predicate Full(cells: seq<Mark>) {
    Blank !in cells
  }

  function Count(cells: seq<Mark>, m: Mark): nat {
    if cells == [] then 0 else (if cells[0] == m then 1 else 0) + Count(cells[1..], m)
  }

  /** What is checked when a move is applied. */
  predicate Applicable(g: Ttt, role: Role, cell: nat)
    requires |g.cells| == 9
  {
    && role != NullRole
    && cell < 9
    && !g.over
    && g.cells[cell] == Blank
  }

  /** Is the move accepted?  The turn is checked when the move is parsed, the rest when it is applied. */
  predicate Legal(g: Ttt, role: Role, cell: nat)
    requires |g.cells| == 9
  {
    role == g.turn && Applicable(g, role, cell)
  }

  function Play(g: Ttt, role: Role, cell: nat): Ttt
    requires |g.cells| == 9 && cell < 9
  {
    var cells := g.cells[cell := MarkOf(role)];
    var won := OwnsLine(cells, MarkOf(role));
    Ttt(cells, Opponent(role), won || Full(cells), if won then role else NullRole, g.resigned)
  }

  function Concede(g: Ttt, role: Role): Ttt {
    g.(over := true, winner := Opponent(role), resigned := true)
  }

  /** One attempt; a refused attempt changes nothing. */
  function Step(g: Ttt, a: Attempt): Ttt
    requires |g.cells| == 9
  {
    match a
    case Move(role, cell) => if Legal(g, role, cell) then Play(g, role, cell) else g
    case Resign(role) => if g.over then g else Concede(g, role)
  }

  function Run(g: Ttt, attempts: seq<Attempt>): Ttt
    requires |g.cells| == 9
    decreases |attempts|
  {
    if attempts == [] then g else Run(Step(g, attempts[0]), attempts[1..])
  }

  /** How many of the attempts are accepted moves. */
  function MovesMade(g: Ttt, attempts: seq<Attempt>): nat
    requires |g.cells| == 9
    decreases |attempts|
  {
    if attempts == [] then 0
    else
      (if attempts[0].Move? && Legal(g, attempts[0].role, attempts[0].cell) then 1 else 0)
      + MovesMade(Step(g, attempts[0]), attempts[1..])
  }

  /** The facts every position of a real game satisfies. */
  ghost predicate Sound(g: Ttt) {
    && |g.cells| == 9
    && g.turn != NullRole
    // the difference of the mark counts is 0 or 1, and fixes the turn
    && Count(g.cells, X) == Count(g.cells, O) + (if g.turn == First then 0 else 1)
    // never two winners on one board
    && !(OwnsLine(g.cells, X) && OwnsLine(g.cells, O))
    // over exactly when there is a reason to be
    && (g.over <==> OwnsLine(g.cells, X) || OwnsLine(g.cells, O) || Full(g.cells) || g.resigned)
    // the winner is the line's owner, unless somebody resigned, which can only happen before a line exists
    && (!g.resigned ==>
          g.winner == if OwnsLine(g.cells, X) then First else if OwnsLine(g.cells, O) then Second else NullRole)
    && (g.resigned ==>
          g.winner != NullRole && !OwnsLine(g.cells, X) && !OwnsLine(g.cells, O) && !Full(g.cells))
  }

  lemma {:induction false} CountUpdate(cells: seq<Mark>, k: nat, v: Mark, m: Mark)
    requires k < |cells|
    ensures Count(cells[k := v], m)
         == Count(cells, m) - (if cells[k] == m then 1 else 0) + (if v == m then 1 else 0)
  {
    if k == 0 {
      assert cells[k := v][1..] == cells[1..];
    } else {
      assert cells[k := v][1..] == cells[1..][k - 1 := v];
      CountUpdate(cells[1..], k - 1, v, m);
    }
  }

  lemma {:induction false} CountsFill(cells: seq<Mark>)
    ensures Count(cells, Blank) + Count(cells, X) + Count(cells, O) == |cells|
    ensures Full(cells) <==> Count(cells, Blank) == 0
  {
    if cells != [] {
      CountsFill(cells[1..]);
      assert cells == [cells[0]] + cells[1..];
    }
  }

  /** A line that appears with a mark is a line of that mark. */
  lemma NewLineIsMine(cells: seq<Mark>, k: nat, m: Mark, other: Mark)
    requires |cells| == 9 && k < 9
    requires m != other && cells[k] == Blank && other != Blank
    ensures OwnsLine(cells[k := m], other) ==> OwnsLine(cells, other)
  {
  }

  lemma BlankBoardSound(g: Ttt)
    requires |g.cells| == 9 && g.turn == First && !g.over && g.winner == NullRole && !g.resigned
    requires forall k :: 0 <= k < 9 ==> g.cells[k] == Blank
    ensures Sound(g) && Count(g.cells, Blank) == 9
  {
    NoMarks(g.cells, X);
    NoMarks(g.cells, O);
    CountsFill(g.cells);
    assert g.cells[0] == g.cells[4] == g.cells[8] == g.cells[2] == Blank;
  }

  lemma {:induction false} NoMarks(cells: seq<Mark>, m: Mark)
    requires m !in cells
    ensures Count(cells, m) == 0
  {
    if cells != [] {
      NoMarks(cells[1..], m);
    }
  }

  lemma StepSound(g: Ttt, a: Attempt)
    requires Sound(g)
    ensures Sound(Step(g, a))
  {
    if a.Move? && Legal(g, a.role, a.cell) {
      var m := MarkOf(a.role);
      var other := if m == X then O else X;
      CountUpdate(g.cells, a.cell, m, X);
      CountUpdate(g.cells, a.cell, m, O);
      NewLineIsMine(g.cells, a.cell, m, other);
    } else if a.Resign? && !g.over {
    }
  }

  /** After a legal move only the mover can own a line: the opponent had none while the game ran. */
  lemma OnlyMoverWins(g: Ttt, role: Role, cell: nat)
    requires Sound(g) && Legal(g, role, cell)
    ensures Sound(Play(g, role, cell))
    ensures !OwnsLine(Play(g, role, cell).cells, MarkOf(Opponent(role)))
  {
    StepSound(g, Move(role, cell));
    NewLineIsMine(g.cells, cell, MarkOf(role), MarkOf(Opponent(role)));
  }

  /** A move applied out of turn always spoils the position: the marks no longer fit the turn. */
  lemma SoundIffInTurn(g: Ttt, role: Role, cell: nat)
    requires Sound(g) && Applicable(g, role, cell)
    ensures Sound(Play(g, role, cell)) <==> role == g.turn
    ensures !OwnsLine(Play(g, role, cell).cells, MarkOf(Opponent(role)))
  {
    NewLineIsMine(g.cells, cell, MarkOf(role), MarkOf(Opponent(role)));
    if role == g.turn {
      OnlyMoverWins(g, role, cell);
    } else {
      CountUpdate(g.cells, cell, MarkOf(role), X);
      CountUpdate(g.cells, cell, MarkOf(role), O);
    }
  }

  /** Every position reached by any attempts from a sound one is sound. */
  lemma {:induction false} RunSound(g: Ttt, attempts: seq<Attempt>)
    requires Sound(g)
    ensures Sound(Run(g, attempts))
    decreases |attempts|
  {
    if attempts != [] {
      StepSound(g, attempts[0]);
      RunSound(Step(g, attempts[0]), attempts[1..]);
    }
  }

  /** Each accepted move fills exactly one blank cell, whatever else is attempted. */
  lemma {:induction false} MovesFillCells(g: Ttt, attempts: seq<Attempt>)
    requires |g.cells| == 9
    ensures |Run(g, attempts).cells| == 9
    ensures MovesMade(g, attempts) + Count(Run(g, attempts).cells, Blank) == Count(g.cells, Blank)
    decreases |attempts|
  {
    if attempts != [] {
      var a := attempts[0];
      if a.Move? && Legal(g, a.role, a.cell) {
        CountUpdate(g.cells, a.cell, MarkOf(a.role), Blank);
      }
      MovesFillCells(Step(g, a), attempts[1..]);
    }
  }

  /** A whole game: sound throughout, at most nine moves, and the ninth ends it. */
  lemma WholeGame(attempts: seq<Attempt>)
    ensures Sound(Run(Initial(), attempts))
    ensures MovesMade(Initial(), attempts) <= 9
    ensures MovesMade(Initial(), attempts) == 9 ==> Run(Initial(), attempts).over
  {
    var g := Initial();
    BlankBoardSound(g);
    RunSound(g, attempts);
    MovesFillCells(g, attempts);
    CountsFill(Run(g, attempts).cells);
  }

  /** Once over, nothing more can happen: outcome and board are final. */
  lemma {:induction false} OverIsFinal(g: Ttt, attempts: seq<Attempt>)
    requires |g.cells| == 9 && g.over
    ensures Run(g, attempts) == g
    decreases |attempts|
  {
    if attempts != [] {
      OverIsFinal(Step(g, attempts[0]), attempts[1..]);
    }
  }
}
