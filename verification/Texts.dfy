/**
 The texts of the protocol as their reader sees them, character by character: the printed position, the
 strings that name a cell, and the lines of the list of users.  Nothing here is said by way of the functions
 that print and parse.
 */
module Texts {
  import opened Roles
  import opened TicTacToe
  import opened Games
  import opened Elo
  import opened Operations

  // ---------------------------------------------------------------- the position

  /** What is printed for a cell. */
  predicate Prints(c: char, m: Mark) {
    (c == ' ' || c == 'X' || c == 'O') && (c == 'X' <==> m == X) && (c == 'O' <==> m == O)
  }

  /**
   The printed position: five lines of five characters, each cell at the crossing of its row and column,
   bars between the columns, dashes between the rows, and the mark of the player who is to move.
   */
  lemma PositionReads(cells: seq<Mark>, turn: Role)
    requires |cells| == 9
    ensures var text := Render(cells, turn);
            && |text| == 40
            && (forall k :: 0 <= k < 9 ==> Prints(text[12 * (k / 3) + 2 * (k % 3)], cells[k]))
            && text[1] == text[3] == text[13] == text[15] == text[25] == text[27] == '|'
            && text[6..11] == text[18..23] == "-----"
            && text[5] == text[11] == text[17] == text[23] == text[29] == '\n'
            && text[30..] == if turn == First then "X to move\n" else "O to move\n"
  {
    var text := Render(cells, turn);
    forall p | 0 <= p < 30
      ensures text[p] == Screen(cells, p / 6, p % 6)
    {
    }
    forall k | 0 <= k < 9
      ensures Prints(text[12 * (k / 3) + 2 * (k % 3)], cells[k])
    {
      var p := 12 * (k / 3) + 2 * (k % 3);
      assert p / 6 == 2 * (k / 3) && p % 6 == 2 * (k % 3);
      assert text[p] == Glyph(cells[k]);
    }
    Separators(cells, turn);
  }

  lemma Separators(cells: seq<Mark>, turn: Role)
    requires |cells| == 9
    ensures var text := Render(cells, turn);
            && |text| == 40
            && text[1] == text[3] == text[13] == text[15] == text[25] == text[27] == '|'
            && text[6..11] == text[18..23] == "-----"
            && text[5] == text[11] == text[17] == text[23] == text[29] == '\n'
            && text[30..] == if turn == First then "X to move\n" else "O to move\n"
  {
    var text := Render(cells, turn);
    assert text[6..11] == "-----";
    assert text[18..23] == "-----";
  }

  lemma OpeningLine(i: nat)
    requires i < 5
    ensures |Render(Initial().cells, First)| == 40
    ensures Render(Initial().cells, First)[6 * i..6 * i + 6] == if i % 2 == 0 then " | | \n" else "-----\n"
  {
    var text := Render(Initial().cells, First);
    var line := if i % 2 == 0 then " | | \n" else "-----\n";
    forall j | 0 <= j < 6
      ensures text[6 * i..6 * i + 6][j] == line[j]
    {
      assert (6 * i + j) / 6 == i && (6 * i + j) % 6 == j;
      assert text[6 * i + j] == Screen(Initial().cells, i, j);
    }
  }

  /** Forty characters are their five lines and the rest. */
  lemma SixPieces(s: string)
    requires |s| == 40
    ensures s == s[0..6] + s[6..12] + s[12..18] + s[18..24] + s[24..30] + s[30..]
  {
  }

  /** The position a game begins with. */
  lemma OpeningReads()
    ensures Render(Initial().cells, First)
         == " | | \n" + "-----\n" + " | | \n" + "-----\n" + " | | \n" + "X to move\n"
  {
    OpeningLine(0);
    OpeningLine(1);
    OpeningLine(2);
    OpeningLine(3);
    OpeningLine(4);
    Separators(Initial().cells, First);
    SixPieces(Render(Initial().cells, First));
  }

  // ---------------------------------------------------------------- moves

  const DIGITS := "123456789"

  /** The string names cell number k for the player who marks with the letter. */
  predicate Names(s: string, k: nat, letter: char)
    requires 1 <= k <= 9
  {
    s == [DIGITS[k - 1]] || [DIGITS[k - 1], '<', '-', letter] <= s
  }

  lemma DigitIs(k: nat)
    requires 1 <= k <= 9
    ensures Digit(k) == DIGITS[k - 1] && Digit(k) as int - '1' as int == k - 1
  {
  }

  /**
   Exactly which strings are a move, and where: the player is in turn, the game is not over, the cell is
   blank, and the string is the digit of the cell alone, or that digit, an arrow and the player's own letter,
   whatever follows.
   */
  lemma MoveReads(g: Ttt, role: Role, s: string, k: nat)
    requires |g.cells| == 9 && 1 <= k <= 9 && '\0' !in s
    ensures (MoveIn(g, role, s).Some? && MoveIn(g, role, s).value.num == k) <==>
              && (role == First || role == Second) && role == g.turn && !g.over && g.cells[k - 1] == Blank
              && Names(s, k, if role == First then 'X' else 'O')
    ensures MoveIn(g, role, s).Some? ==> 1 <= MoveIn(g, role, s).value.num <= 9
    ensures Names(s, k, if role == First then 'X' else 'O') ==> s != "" && s[0] as int - '1' as int == k - 1
  {
    MoveGrammar(role, s, k);
    DigitIs(k);
  }

  /** A move as it is printed. */
  lemma PrintedMoveReads(m: GameMove)
    requires m.WellFormed()
    ensures PrintMove(m) == [DIGITS[m.num - 1]] + (if m.role == First then "<-X\n" else "<-O\n")
  {
    DigitIs(m.num);
  }

  // ---------------------------------------------------------------- numbers and lists

  /** The number that digits spell, from the left. */
  function Spelled(digits: string, value: int): int {
    if digits == "" then value else Spelled(digits[1..], 10 * value + (digits[0] as int - '0' as int))
  }

  /** A decimal numeral, read. */
  function Read(numeral: string): int {
    if numeral != "" && numeral[0] == '-' then -Spelled(numeral[1..], 0) else Spelled(numeral, 0)
  }

  lemma {:induction false} SpelledMore(digits: string, d: char, value: int)
    ensures Spelled(digits + [d], value) == 10 * Spelled(digits, value) + (d as int - '0' as int)
    decreases |digits|
  {
    if digits == "" {
      assert (digits + [d])[1..] == "";
    } else {
      assert (digits + [d])[1..] == digits[1..] + [d];
      SpelledMore(digits[1..], d, 10 * value + (digits[0] as int - '0' as int));
    }
  }

  predicate Numeric(c: char) {
    '0' <= c <= '9'
  }

  lemma {:induction false} NaturalReads(n: nat)
    ensures Decimal(n) != "" && Spelled(Decimal(n), 0) == n
    ensures (forall k :: 0 <= k < |Decimal(n)| ==> Numeric(Decimal(n)[k]))
    ensures n != 0 ==> Decimal(n)[0] != '0'
  {
    if n >= 10 {
      NaturalReads(n / 10);
      SpelledMore(Decimal(n / 10), '0' + (n % 10) as char, 0);
    } else {
      assert Decimal(n) == ['0' + n as char];
      assert Spelled(Decimal(n), 0) == Spelled(Decimal(n)[1..], n);
    }
  }

  /** A number in the list of users reads as itself, without needless zeros. */
  lemma DecimalReads(n: int)
    ensures Read(Decimal(n)) == n
    ensures n != 0 ==> Decimal(n)[if n < 0 then 1 else 0] != '0'
  {
    if n < 0 {
      NaturalReads(-n);
      assert Decimal(n)[1..] == Decimal(-n);
    } else {
      NaturalReads(n);
    }
  }

  /** The list of users: a line for each, the name, a tab, the rating, one after the other. */
  lemma ListReads(lines: seq<Line>, last: Line)
    ensures ListingText([]) == ""
    ensures ListingText(lines + [last]) == ListingText(lines) + last.name + "\t" + Decimal(last.rating) + "\n"
  {
    assert (lines + [last])[..|lines|] == lines;
  }
}
