/**
 The game of src/game.c: a 5x6 board of characters, a turn, a status and a winner,
 updated in place, with its move parser and its printers.

 The ghost field `abs` is the abstract position the object stands for; `Valid` ties it to
 the characters and fields.  A parse followed by an apply is one step here; module TurnBaton
 takes the two apart.
 */
module Games {
  import opened Roles
  import opened Sealing
  import opened TicTacToe

  /** GAME_MOVE: the role and the cell, by number and by board coordinates. */
  datatype GameMove = GameMove(role: Role, i: nat, j: nat, num: nat) {
    predicate WellFormed() {
      1 <= num <= 9 && i == (num - 1) / 3 * 2 && j == (num - 1) % 3 * 2
    }
  }

  datatype Option<T> = None | Some(value: T)

  const FULL_BOARD := 33

  function Glyph(m: Mark): char {
    match m
    case Blank => ' '
    case X => 'X'
    case O => 'O'
  }

  /** The character at row i, column j of a board showing the cells: marks, separators, line ends. */
  function Screen(cells: seq<Mark>, i: nat, j: nat): char
    requires |cells| == 9 && i < 5 && j < 6
  {
    if j == 5 then '\n'
    else if i % 2 == 1 then '-'
    else if j % 2 == 1 then '|'
    else Glyph(cells[i / 2 * 3 + j / 2])
  }

  function TurnLetter(r: Role): char {
    if r == First then 'X' else 'O'
  }

  function Render(cells: seq<Mark>, turn: Role): string
    requires |cells| == 9
  {
    seq(30, p requires 0 <= p < 30 => Screen(cells, p / 6, p % 6)) + [TurnLetter(turn)] + " to move\n"
  }

  /** The printed state tells two positions apart: it determines every cell and the turn. */
  lemma RenderDeterminesPosition(c: seq<Mark>, t: Role, c': seq<Mark>, t': Role)
    requires |c| == 9 && |c'| == 9 && t != NullRole && t' != NullRole
    requires Render(c, t) == Render(c', t')
    ensures c == c' && t == t'
  {
    assert Render(c, t)[30] == TurnLetter(t) && Render(c', t')[30] == TurnLetter(t');
    forall k | 0 <= k < 9
      ensures c[k] == c'[k]
    {
      var p := k / 3 * 12 + k % 3 * 2;
      assert p / 6 == k / 3 * 2 && p % 6 == k % 3 * 2;
      assert Render(c, t)[p] == Screen(c, p / 6, p % 6) == Glyph(c[k]);
      assert Render(c', t')[p] == Screen(c', p / 6, p % 6) == Glyph(c'[k]);
    }
  }

  /** The byte at offset k of a C string: the terminator when the string has ended. */
  function At(s: string, k: nat): char {
    if k < |s| then s[k] else '\0'
  }

  /** is_valid_move_str: the cell number a move string names for a role, or -1. */
  function MoveNumber(role: Role, s: string): (r: int)
    ensures r == -1 || 1 <= r <= 9
  {
    var first := At(s, 0);
    if first < '1' || first > '9' then -1
    else if At(s, 1) == '\0' then first as int - '0' as int
    else if At(s, 1) != '<' then -1
    else if At(s, 2) != '-' then -1
    else if At(s, 3) == 'X' then (if role != First then -1 else first as int - '0' as int)
    else if At(s, 3) == 'O' then (if role != Second then -1 else first as int - '0' as int)
    else -1
  }

  function Digit(k: nat): char
    requires 1 <= k <= 9
  {
    '0' + k as char
  }

  /** The strings accepted: the digit alone, or "digit<-letter" with the role's own letter and anything after. */
  lemma MoveGrammar(role: Role, s: string, k: nat)
    requires 1 <= k <= 9 && '\0' !in s
    ensures MoveNumber(role, s) == k <==>
              s == [Digit(k)] || (role != NullRole && [Digit(k), '<', '-', TurnLetter(role)] <= s)
  {
    if MoveNumber(role, s) == k {
      assert s[0] == Digit(k);
      if |s| > 1 {
        assert At(s, 1) == s[1];
        assert s[..4] == [Digit(k), '<', '-', TurnLetter(role)];
      } else {
        assert s == [Digit(k)];
      }
    }
    if s == [Digit(k)] {
      assert At(s, 0) == Digit(k);
    }
    if role != NullRole && [Digit(k), '<', '-', TurnLetter(role)] <= s {
      assert s[0] == Digit(k) && s[1] == '<' && s[2] == '-' && s[3] == TurnLetter(role);
    }
  }

  /** game_unparse_move: the printed form of a move, with its newline. */
  function PrintMove(m: GameMove): string
    requires m.WellFormed()
  {
    [Digit(m.num)] + "<-" + [TurnLetter(m.role)] + "\n"
  }

  /** game_parse_move, as a function of the turn. */
  function ParsedMove(turn: Role, role: Role, s: string): Option<GameMove> {
    if role != NullRole && role != turn then None
    else
      var k := MoveNumber(role, s);
      if k == -1 then None else Some(GameMove(role, (k - 1) / 3 * 2, (k - 1) % 3 * 2, k))
  }

  /** A printed move parses back to itself, for the player whose turn it is. */
  lemma ParsePrintedMove(m: GameMove)
    requires m.WellFormed() && m.role != NullRole
    ensures ParsedMove(m.role, m.role, PrintMove(m)) == Some(m)
  {
    var s := PrintMove(m);
    assert s[0] == Digit(m.num) && s[1] == '<' && s[2] == '-' && s[3] == TurnLetter(m.role);
  }

  /** The mark that fills the three cells, if one does. */
  function LineOf(cells: seq<Mark>, i: nat, j: nat, k: nat): Mark
    requires |cells| == 9 && i < 9 && j < 9 && k < 9
  {
    if Three(cells, cells[i], i, j, k) then cells[i] else Blank
  }

  function FirstOf(a: Mark, b: Mark, c: Mark): Mark {
    if a != Blank then a else if b != Blank then b else c
  }

  function RowLine(cells: seq<Mark>, r: nat): Mark
    requires |cells| == 9 && r < 3
  {
    LineOf(cells, 3 * r, 3 * r + 1, 3 * r + 2)
  }

  function ColumnLine(cells: seq<Mark>, k: nat): Mark
    requires |cells| == 9 && k < 3
  {
    LineOf(cells, k, k + 3, k + 6)
  }

  function FirstRow(cells: seq<Mark>): Mark
    requires |cells| == 9
  {
    FirstOf(RowLine(cells, 0), RowLine(cells, 1), RowLine(cells, 2))
  }

  function FirstColumn(cells: seq<Mark>): Mark
    requires |cells| == 9
  {
    FirstOf(ColumnLine(cells, 0), ColumnLine(cells, 1), ColumnLine(cells, 2))
  }

  function FirstDiagonal(cells: seq<Mark>): Mark
    requires |cells| == 9
  {
    FirstOf(LineOf(cells, 0, 4, 8), LineOf(cells, 2, 4, 6), Blank)
  }

  /** Whose line is found first: rows, then columns, then diagonals. */
  function FirstLine(cells: seq<Mark>): Mark
    requires |cells| == 9
  {
    FirstOf(FirstRow(cells), FirstColumn(cells), FirstDiagonal(cells))
  }

  lemma FirstLineFinds(cells: seq<Mark>)
    requires |cells| == 9
    ensures FirstLine(cells) == Blank <==> !OwnsLine(cells, X) && !OwnsLine(cells, O)
    ensures FirstLine(cells) != Blank ==> OwnsLine(cells, FirstLine(cells))
  {
  }

  /** What verify_board returns for it. */
  function Letter(m: Mark): int {
    if m == Blank then 0 else Glyph(m) as int
  }

  /** The code of apply_and_verify_safe tells status and winner of the position a move leads to. */
  lemma CodeFits(g: Ttt, role: Role, cell: nat, c: int)
    requires SealedSound(g) && |g.cells| == 9 && Applicable(g, role, cell)
    requires var cells := g.cells[cell := MarkOf(role)];
             c == if FirstLine(cells) == Blank && Full(cells) then FULL_BOARD else Letter(FirstLine(cells))
    ensures var g' := Play(g, role, cell);
            && (g'.over <==> c != 0)
            && g'.winner == (if c == 'X' as int then First else if c == 'O' as int then Second else g.winner)
            && (SealedSound(g') <==> role == g.turn)
  {
    assert Key(0);
    SoundIffInTurn(g, role, cell);
    FirstLineFinds(g.cells[cell := MarkOf(role)]);
  }

  ghost predicate SealedSound(g: Ttt) {
    forall k {:trigger Key(k)} :: Key(k) ==> Sound(g)
  }

  class Game {
    const board: array2<char>
    var curTurn: Role
    var terminated: bool
    var winner: Role
    var refCount: nat
    ghost var abs: Ttt
    ghost var alive: bool

    /** The board shows exactly these cells: separators and line ends included. */
    ghost predicate Shows(cells: seq<Mark>)
      reads board
    {
      && |cells| == 9
      && board.Length0 == 5 && board.Length1 == 6
      && forall i: nat, j: nat :: i < 5 && j < 6 ==> board[i, j] == Screen(cells, i, j)
    }

    /** The characters and fields are those of the position `abs`. */
    ghost predicate Synced()
      reads `abs, `curTurn, `terminated, `winner, board
    {
      && |abs.cells| == 9
      && Shows(abs.cells)
      && curTurn == abs.turn
      && terminated == abs.over
      && winner == abs.winner
    }

    ghost predicate Valid()
      reads `abs, `curTurn, `terminated, `winner, board
    {
      Synced() && SealedSound(abs)
    }

    constructor ()
      ensures Valid() && fresh(board)
      ensures abs == Initial()
      ensures alive && refCount == 1
    {
      var b := new char[5, 6];
      board := b;
      terminated := false;
      winner := NullRole;
      curTurn := First;
      refCount := 0;
      alive := true;
      abs := Initial();
      new;
      FillBoard();
      BlankBoardSound(abs);
      Ref();
    }

    /** The initialising loops of game_create. */
    method FillBoard()
      requires board.Length0 == 5 && board.Length1 == 6
      modifies board
      ensures Shows(Initial().cells)
    {
      for i := 0 to 5
        invariant forall r, c :: 0 <= r < i && 0 <= c < 5 ==> board[r, c] == ' '
      {
        for j := 0 to 5
          invariant forall r, c :: 0 <= r < i && 0 <= c < 5 ==> board[r, c] == ' '
          invariant forall c :: 0 <= c < j ==> board[i, c] == ' '
        {
          board[i, j] := ' ';
        }
      }
      for i := 0 to 5
        invariant forall r, c :: 0 <= r < 5 && 0 <= c < 5 ==> board[r, c] == ' '
        invariant forall r :: 0 <= r < i ==> board[r, 5] == '\n'
      {
        board[i, 5] := '\n';
      }
      var i := 1;
      while i < 5
        invariant 1 <= i <= 5 && i % 2 == 1
        invariant forall r :: 0 <= r < 5 ==> board[r, 5] == '\n'
        invariant forall r, c :: 0 <= r < 5 && 0 <= c < 5 ==>
                                   board[r, c] == if r % 2 == 1 && r < i then '-' else ' '
      {
        for j := 0 to 5
          invariant forall r :: 0 <= r < 5 ==> board[r, 5] == '\n'
          invariant forall r, c :: 0 <= r < 5 && 0 <= c < 5 ==>
                                     board[r, c] == if r % 2 == 1 && (r < i || (r == i && c < j)) then '-' else ' '
        {
          board[i, j] := '-';
        }
        i := i + 2;
      }
      i := 0;
      while i < 5
        invariant 0 <= i <= 6 && i % 2 == 0
        invariant forall r :: 0 <= r < 5 ==> board[r, 5] == '\n'
        invariant forall r, c :: 0 <= r < 5 && 0 <= c < 5 ==>
                                   board[r, c] == if r % 2 == 1 then '-' else if c % 2 == 1 && r < i then '|' else ' '
      {
        var j := 1;
        while j < 5
          invariant 1 <= j <= 5 && j % 2 == 1
          invariant forall r :: 0 <= r < 5 ==> board[r, 5] == '\n'
          invariant forall r, c :: 0 <= r < 5 && 0 <= c < 5 ==>
                                     board[r, c] == if r % 2 == 1 then '-'
                                     else if c % 2 == 1 && (r < i || (r == i && c < j)) then '|' else ' '
        {
          board[i, j] := '|';
          j := j + 2;
        }
        i := i + 2;
      }
    }

    /** game_is_over. */
    function IsOver(): bool
      requires alive
      reads `alive, `terminated
    {
      terminated
    }

    /** game_get_winner. */
    function GetWinner(): Role
      requires alive
      reads `alive, `winner
    {
      winner
    }

    method Ref()
      requires alive
      modifies this`refCount
      ensures refCount == old(refCount) + 1
    {
      refCount := refCount + 1;
    }

    ghost function LastSelf(): set<Game>
      reads this
    {
      if refCount == 1 then {this} else {}
    }

    /** Gives up one reference; the last one frees the game. */
    method Unref()
      requires alive && refCount >= 1
      modifies this`refCount, LastSelf()`alive
      ensures refCount == old(refCount) - 1
      ensures alive <==> refCount > 0
    {
      refCount := refCount - 1;
      if refCount == 0 {
        alive := false;
      }
    }

    method VerifyRows(ghost cells: seq<Mark>) returns (ret: int)
      requires alive && Shows(cells)
      ensures ret == Letter(FirstRow(cells))
    {
      var i := 0;
      while i < 5
        invariant 0 <= i <= 6 && i % 2 == 0
        invariant forall r :: 0 <= r < i / 2 ==> RowLine(cells, r) == Blank
      {
        var co := 0;
        var c := board[i, 0];
        if c != ' ' {
          var j := 0;
          while j < 5
            invariant 0 <= j <= 6 && j % 2 == 0
            invariant co == (if j > 0 && board[i, 0] == c then 1 else 0) + (if j > 2 && board[i, 2] == c then 1 else 0)
                            + (if j > 4 && board[i, 4] == c then 1 else 0)
          {
            if board[i, j] == c {
              co := co + 1;
            }
            j := j + 2;
          }
          if co == 3 {
            assert c as int == Letter(RowLine(cells, i / 2));
            return c as int;
          }
        }
        i := i + 2;
      }
      return 0;
    }

    method VerifyColumns(ghost cells: seq<Mark>) returns (ret: int)
      requires alive && Shows(cells)
      ensures ret == Letter(FirstColumn(cells))
    {
      var j := 0;
      while j < 5
        invariant 0 <= j <= 6 && j % 2 == 0
        invariant forall k :: 0 <= k < j / 2 ==> ColumnLine(cells, k) == Blank
      {
        var co := 0;
        var c := board[0, j];
        if c != ' ' {
          var i := 0;
          while i < 5
            invariant 0 <= i <= 6 && i % 2 == 0
            invariant co == (if i > 0 && board[0, j] == c then 1 else 0) + (if i > 2 && board[2, j] == c then 1 else 0)
                            + (if i > 4 && board[4, j] == c then 1 else 0)
          {
            if board[i, j] == c {
              co := co + 1;
            }
            i := i + 2;
          }
          if co == 3 {
            assert c as int == Letter(ColumnLine(cells, j / 2));
            return c as int;
          }
        }
        j := j + 2;
      }
      return 0;
    }

    method VerifyDiagonals(ghost cells: seq<Mark>) returns (ret: int)
      requires alive && Shows(cells)
      ensures ret == Letter(FirstDiagonal(cells))
    {
      var co := 0;
      var c := board[0, 0];
      if c != ' ' {
        var i := 0;
        while i < 5
          invariant 0 <= i <= 6 && i % 2 == 0
          invariant co == (if i > 0 && board[0, 0] == c then 1 else 0) + (if i > 2 && board[2, 2] == c then 1 else 0)
                          + (if i > 4 && board[4, 4] == c then 1 else 0)
        {
          if board[i, i] == c {
            co := co + 1;
          }
          i := i + 2;
        }
        if co == 3 {
          return c as int;
        }
      }
      co := 0;
      c := board[0, 4];
      if c != ' ' {
        var i, j := 0, 4;
        while i < 5 && j >= 0
          invariant 0 <= i <= 6 && i % 2 == 0 && j == 4 - i
          invariant co == (if i > 0 && board[0, 4] == c then 1 else 0) + (if i > 2 && board[2, 2] == c then 1 else 0)
                          + (if i > 4 && board[4, 0] == c then 1 else 0)
        {
          if board[i, j] == c {
            co := co + 1;
          }
          i, j := i + 2, j - 2;
        }
        if co == 3 {
          return c as int;
        }
      }
      return 0;
    }

    /** verify_board: 0 when nobody owns a line, otherwise the letter of the first line it comes to. */
    method VerifyBoard(ghost cells: seq<Mark>) returns (ret: int)
      requires alive && Shows(cells)
      ensures ret == Letter(FirstLine(cells))
    {
      ret := VerifyRows(cells);
      if ret != 0 {
        return;
      }
      ret := VerifyColumns(cells);
      if ret != 0 {
        return;
      }
      ret := VerifyDiagonals(cells);
    }

    method SpaceExists(ghost cells: seq<Mark>) returns (space: bool)
      requires alive && Shows(cells)
      ensures space <==> !Full(cells)
    {
      space := false;
      var i := 0;
      while i < 5
        invariant 0 <= i <= 6 && i % 2 == 0
        invariant space ==> !Full(cells)
        invariant !space ==> forall k :: 0 <= k < i / 2 * 3 ==> cells[k] != Blank
      {
        var j := 0;
        while j < 5
          invariant 0 <= j <= 6 && j % 2 == 0
          invariant space ==> !Full(cells)
          invariant !space ==> forall k :: 0 <= k < i / 2 * 3 + j / 2 ==> cells[k] != Blank
        {
          if board[i, j] == ' ' {
            assert cells[i / 2 * 3 + j / 2] == Blank;
            space := true;
            break;
          }
          j := j + 2;
        }
        i := i + 2;
      }
    }

    method PlaceMark(move: GameMove, ghost cells: seq<Mark>)
      requires alive && Shows(cells) && move.WellFormed()
      modifies board
      ensures Shows(cells[move.num - 1 := MarkOf(move.role)])
    {
      board[move.i, move.j] := if move.role == First then 'X' else 'O';
    }

    /** apply_and_verify_safe: writes the mark, then says whether that ended the game and how. */
    method ApplyAndVerify(move: GameMove, ghost cells: seq<Mark>, ghost cells': seq<Mark>) returns (ret: int)
      requires alive && Shows(cells) && move.WellFormed() && cells[move.num - 1] == Blank
      requires cells' == cells[move.num - 1 := MarkOf(move.role)]
      modifies board
      ensures Shows(cells')
      ensures ret == if FirstLine(cells') == Blank && Full(cells') then FULL_BOARD else Letter(FirstLine(cells'))
    {
      var space := SpaceExists(cells);
      if !space {
        assert false;
      }
      PlaceMark(move, cells);
      ret := VerifyBoard(cells');
      if ret != 0 {
        return;
      }
      space := SpaceExists(cells');
      if !space {
        return FULL_BOARD;
      }
      return 0;
    }

    /** A refused move changes nothing. */
    ghost function Moving(move: GameMove): set<Game>
      reads this
    {
      if |abs.cells| == 9 && move.num >= 1 && Applicable(abs, move.role, move.num - 1) then {this} else {}
    }

    /**
     game_apply_move.  It refuses a finished game, a missing role and a taken cell.  It does not look at
     the turn: the position stays a sound one exactly when the move is in turn, or refused.
     */
    method ApplyMove(move: GameMove) returns (r: int)
      requires alive && Valid() && move.WellFormed()
      modifies Moving(move)`curTurn, Moving(move)`terminated, Moving(move)`winner, Moving(move)`abs
      modifies if Moving(move) == {} then {} else {board}
      ensures r == if Applicable(old(abs), move.role, move.num - 1) then 0 else -1
      ensures Synced() && abs == if r == 0 then Play(old(abs), move.role, move.num - 1) else old(abs)
      ensures Valid() <==> r == -1 || move.role == old(curTurn)
    {
      if terminated {
        return -1;
      }
      if move.role == NullRole {
        return -1;
      }
      if board[move.i, move.j] != ' ' {
        return -1;
      }
      assert abs.cells[move.num - 1] == Blank;
      ghost var cells' := abs.cells[move.num - 1 := MarkOf(move.role)];
      var c := ApplyAndVerify(move, abs.cells, cells');
      CodeFits(abs, move.role, move.num - 1, c);
      abs := Play(abs, move.role, move.num - 1);
      curTurn := if First == move.role then Second else First;
      EndIfDecided(c);
      return 0;
    }

    /** The end of game_apply_move: what the code of apply_and_verify_safe says about the game. */
    method EndIfDecided(c: int)
      requires alive
      modifies `terminated, `winner
      ensures terminated == (old(terminated) || c != 0)
      ensures winner == if c == 'X' as int then First else if c == 'O' as int then Second else old(winner)
    {
      if c != 0 {
        terminated := true;
        if c == 'X' as int {
          winner := First;
        } else if c == 'O' as int {
          winner := Second;
        }
      }
    }

    /** A refused resignation changes nothing. */
    ghost function Running(): set<Game>
      reads this
    {
      if abs.over then {} else {this}
    }

    /** game_resign: refused when the game is over, otherwise the other role wins. */
    method Resign(role: Role) returns (r: int)
      requires alive && Valid()
      modifies Running()`terminated, Running()`winner, Running()`abs
      ensures Valid()
      ensures r == if old(abs).over then -1 else 0
      ensures abs == Step(old(abs), Attempt.Resign(role))
    {
      assert Key(0);
      if terminated {
        return -1;
      }
      StepSound(abs, Attempt.Resign(role));
      abs := Concede(abs, role);
      terminated := true;
      winner := if role == First then Second else First;
      return 0;
    }

    /** game_parse_move: wrong turn or malformed string is an error. */
    method ParseMove(role: Role, s: string) returns (m: Option<GameMove>)
      requires alive && Valid()
      ensures m == ParsedMove(abs.turn, role, s)
      ensures m.Some? ==> m.value.WellFormed() && m.value.role == role && (role == NullRole || role == curTurn)
    {
      if role != NullRole && role != curTurn {
        return None;
      }
      var k := MoveNumber(role, s);
      if k == -1 {
        return None;
      }
      return Some(GameMove(role, (k - 1) / 3 * 2, (k - 1) % 3 * 2, k));
    }

    /** game_unparse_state: the board row by row, then whose move it is. */
    method UnparseState() returns (s: string)
      requires alive && Valid()
      ensures s == Render(abs.cells, abs.turn)
    {
      s := "";
      for i := 0 to 5
        invariant |s| == 6 * i
        invariant forall p :: 0 <= p < |s| ==> s[p] == Screen(abs.cells, p / 6, p % 6)
      {
        for j := 0 to 6
          invariant |s| == 6 * i + j
          invariant forall p :: 0 <= p < |s| ==> s[p] == Screen(abs.cells, p / 6, p % 6)
        {
          assert (6 * i + j) / 6 == i && (6 * i + j) % 6 == j;
          s := s + [board[i, j]];
        }
      }
      s := s + [if curTurn == First then 'X' else 'O'] + " to move\n";
    }
  }
}
