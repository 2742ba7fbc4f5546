/**
 The rating arithmetic of player_post_result (src/player.c:110-120), over the reals.

 `pow10` stands for x |-> 10^x.  Two facts about it are used everywhere: it is positive, and
 10^x * 10^(-x) = 1; who gains more also depends on its growing, and the scale on 10^1 = 10.
 */
module Elo {
  import opened Sealing

  const INITIAL_RATING: real := 1500.0

  /** The C library's round, and the conversion to int: halves go away from zero. */
  function Rounded(x: real): int {
    if x >= 0.0 then (x + 0.5).Floor else -((0.5 - x).Floor)
  }

  /** The nearest whole number; between two of them the one farther from zero. */
  lemma RoundedIsNearest(x: real)
    ensures -0.5 <= Rounded(x) as real - x <= 0.5
    ensures Rounded(x) as real - x == 0.5 ==> x > 0.0
    ensures Rounded(x) as real - x == -0.5 ==> x < 0.0
  {
  }

  predicate PowerAt(pow10: real -> real, x: real) {
    pow10(x) > 0.0 && pow10(-x) > 0.0 && pow10(x) * pow10(-x) == 1.0
  }

  ghost predicate IsPower(pow10: real -> real) {
    forall k {:trigger Key(k)} :: Key(k) ==> forall x: real :: PowerAt(pow10, x)
  }

  function FirstScore(result: int): real {
    if result == 0 then 0.5 else if result == 1 then 1.0 else 0.0
  }

  function SecondScore(result: int): real {
    if result == 0 then 0.5 else if result == 2 then 1.0 else 0.0
  }

  function Gap(mine: real, theirs: real): real {
    (theirs - mine) / 400.0
  }

  function Expected(pow10: real -> real, mine: real, theirs: real): real
    requires PowerAt(pow10, Gap(mine, theirs))
  {
    1.0 / (1.0 + pow10(Gap(mine, theirs)))
  }

  function Updated(pow10: real -> real, mine: real, theirs: real, score: real): real
    requires PowerAt(pow10, Gap(mine, theirs))
  {
    mine + 32.0 * (score - Expected(pow10, mine, theirs))
  }

  /** The pair of new ratings. */
  ghost function Post(pow10: real -> real, r1: real, r2: real, result: int): (real, real)
    requires IsPower(pow10)
  {
    assert Key(0) && PowerAt(pow10, Gap(r1, r2)) && PowerAt(pow10, Gap(r2, r1));
    (Updated(pow10, r1, r2, FirstScore(result)), Updated(pow10, r2, r1, SecondScore(result)))
  }

  /** n1 and n2 are the new ratings: Post, kept folded. */
  ghost predicate Rated(pow10: real -> real, r1: real, r2: real, result: int, n1: real, n2: real) {
    forall k {:trigger Key(k)} :: Key(k) ==> IsPower(pow10) && (n1, n2) == Post(pow10, r1, r2, result)
  }

  lemma Reciprocals(a: real, b: real)
    requires a > 0.0 && b > 0.0 && a * b == 1.0
    ensures 1.0 / (1.0 + a) + 1.0 / (1.0 + b) == 1.0
    ensures 0.0 < 1.0 / (1.0 + a) < 1.0
  {
    var e, f := 1.0 / (1.0 + a), 1.0 / (1.0 + b);
    assert e * (1.0 + a) == 1.0 && f * (1.0 + b) == 1.0;
    assert (1.0 + a) * (1.0 + b) == 2.0 + a + b;
    assert (e + f) * ((1.0 + a) * (1.0 + b)) == (e * (1.0 + a)) * (1.0 + b) + (f * (1.0 + b)) * (1.0 + a);
    assert (e + f) * (2.0 + a + b) == 2.0 + a + b;
    assert (e + f - 1.0) * (2.0 + a + b) == 0.0;
  }

  /** What one player is expected to score is what the other is not. */
  lemma ExpectationsComplement(pow10: real -> real, r1: real, r2: real)
    requires IsPower(pow10)
    ensures PowerAt(pow10, Gap(r1, r2)) && PowerAt(pow10, Gap(r2, r1))
    ensures Expected(pow10, r1, r2) + Expected(pow10, r2, r1) == 1.0
    ensures 0.0 < Expected(pow10, r1, r2) < 1.0
    ensures 0.0 < Expected(pow10, r2, r1) < 1.0
  {
    assert Key(0);
    var x := Gap(r1, r2);
    assert Gap(r2, r1) == -x;
    assert PowerAt(pow10, x) && PowerAt(pow10, -x);
    Reciprocals(pow10(x), pow10(-x));
    Reciprocals(pow10(-x), pow10(x));
  }

  /** Ratings are conserved exactly when the result code is one the protocol has. */
  lemma PostConserves(pow10: real -> real, r1: real, r2: real, result: int)
    requires IsPower(pow10)
    ensures var (n1, n2) := Post(pow10, r1, r2, result);
            n1 + n2 == r1 + r2 <==> 0 <= result <= 2
  {
    ExpectationsComplement(pow10, r1, r2);
  }

  /** A winner gains, and a loser loses, strictly between 0 and 32 points; a draw moves less than 16. */
  lemma PostGains(pow10: real -> real, r1: real, r2: real)
    requires IsPower(pow10)
    ensures r1 < Post(pow10, r1, r2, 1).0 < r1 + 32.0 && r2 - 32.0 < Post(pow10, r1, r2, 1).1 < r2
    ensures r2 < Post(pow10, r1, r2, 2).1 < r2 + 32.0 && r1 - 32.0 < Post(pow10, r1, r2, 2).0 < r1
    ensures r1 - 16.0 < Post(pow10, r1, r2, 0).0 < r1 + 16.0
    ensures r2 - 16.0 < Post(pow10, r1, r2, 0).1 < r2 + 16.0
  {
    ExpectationsComplement(pow10, r1, r2);
  }

  /** The formula does not depend on who is called player1: swapping players and result swaps the ratings. */
  lemma PostSymmetric(pow10: real -> real, r1: real, r2: real, result: int)
    requires IsPower(pow10)
    ensures var swapped := if result == 1 then 2 else if result == 2 then 1 else result;
            Post(pow10, r2, r1, swapped) == (Post(pow10, r1, r2, result).1, Post(pow10, r1, r2, result).0)
  {
  }

  /** Greater numbers have greater powers. */
  ghost predicate Increasing(pow10: real -> real) {
    forall x: real, y: real :: x < y ==> pow10(x) < pow10(y)
  }

  /** pow10(0) is 1. */
  lemma PowerOfNothing(pow10: real -> real)
    requires IsPower(pow10)
    ensures pow10(0.0) == 1.0
  {
    assert Key(0) && PowerAt(pow10, 0.0);
    var zero := 0.0;
    assert -zero == zero && PowerAt(pow10, zero);
    RootOfOne(pow10(zero));
  }

  lemma RootOfOne(a: real)
    requires a > 0.0 && a * a == 1.0
    ensures a == 1.0
  {
    assert a > 1.0 ==> a * a > a;
    assert a < 1.0 ==> a * a < a;
  }

  /** The stronger player is expected to score more than a half, and nobody else. */
  lemma StrongerIsExpected(pow10: real -> real, r1: real, r2: real)
    requires IsPower(pow10) && Increasing(pow10)
    ensures PowerAt(pow10, Gap(r1, r2))
    ensures Expected(pow10, r1, r2) > 0.5 <==> r1 > r2
    ensures Expected(pow10, r1, r2) == 0.5 <==> r1 == r2
  {
    ExpectationsComplement(pow10, r1, r2);
    PowerOfNothing(pow10);
    var x := Gap(r1, r2);
    assert (x < 0.0 <==> r1 > r2) && (x == 0.0 <==> r1 == r2);
    assert (pow10(x) < 1.0 <==> x < 0.0) && (pow10(x) == 1.0 <==> x == 0.0);
    HalfExactly(pow10(x));
  }

  lemma HalfExactly(a: real)
    requires a > 0.0
    ensures 1.0 / (1.0 + a) > 0.5 <==> a < 1.0
    ensures 1.0 / (1.0 + a) == 0.5 <==> a == 1.0
  {
    var e := 1.0 / (1.0 + a);
    assert e * (1.0 + a) == 1.0;
    assert (e - 0.5) * (1.0 + a) == 0.5 * (1.0 - a);
    if a < 1.0 {
      assert e > 0.5;
    } else if a > 1.0 {
      assert e < 0.5;
    }
  }

  /** Of two opponents beaten, or drawn with, the stronger one brings more; and so a loss to the weaker costs more. */
  lemma StrongerBringsMore(pow10: real -> real, r: real, strong: real, weak: real, result: int)
    requires IsPower(pow10) && Increasing(pow10) && strong > weak
    ensures Post(pow10, r, strong, result).0 > Post(pow10, r, weak, result).0
    ensures Post(pow10, strong, r, result).1 > Post(pow10, weak, r, result).1
  {
    ExpectationsComplement(pow10, r, strong);
    ExpectationsComplement(pow10, r, weak);
    var x, y := Gap(r, strong), Gap(r, weak);
    assert x > y && pow10(x) > pow10(y) > 0.0;
    Decreasing(pow10(y), pow10(x));
  }

  lemma Decreasing(a: real, b: real)
    requires 0.0 < a < b
    ensures 1.0 / (1.0 + b) < 1.0 / (1.0 + a)
  {
    var e, f := 1.0 / (1.0 + a), 1.0 / (1.0 + b);
    assert e * (1.0 + a) == 1.0 && f * (1.0 + b) == 1.0;
    assert (e - f) * (1.0 + a) == f * (b - a);
    assert f > 0.0 && b - a > 0.0;
    assert f * (b - a) > 0.0;
  }

  /**
   The scale: between equals a win moves 16 points and a draw none; and who is 400 points ahead is expected
   to score ten points in eleven, so that beating somebody 400 points ahead brings 320/11.
   */
  lemma Scale(pow10: real -> real, r: real)
    requires IsPower(pow10) && pow10(1.0) == 10.0
    ensures Post(pow10, r, r, 1) == (r + 16.0, r - 16.0) && Post(pow10, r, r, 2) == (r - 16.0, r + 16.0)
    ensures Post(pow10, r, r, 0) == (r, r)
    ensures PowerAt(pow10, Gap(r + 400.0, r)) && Expected(pow10, r + 400.0, r) == 10.0 / 11.0
    ensures Post(pow10, r, r + 400.0, 1) == (r + 320.0 / 11.0, r + 400.0 - 320.0 / 11.0)
  {
    PowerOfNothing(pow10);
    ExpectationsComplement(pow10, r, r);
    ExpectationsComplement(pow10, r, r + 400.0);
    assert Gap(r, r) == 0.0 && Gap(r, r + 400.0) == 1.0;
  }

  function Sum(ratings: seq<real>): real {
    if ratings == [] then 0.0 else ratings[0] + Sum(ratings[1..])
  }

  lemma {:induction false} SumUpdate(ratings: seq<real>, i: nat, v: real)
    requires i < |ratings|
    ensures Sum(ratings[i := v]) == Sum(ratings) - ratings[i] + v
  {
    if i == 0 {
      assert ratings[i := v][1..] == ratings[1..];
    } else {
      assert ratings[i := v][1..] == ratings[1..][i - 1 := v];
      SumUpdate(ratings[1..], i - 1, v);
    }
  }

  lemma {:induction false} SumAppend(ratings: seq<real>, v: real)
    ensures Sum(ratings + [v]) == Sum(ratings) + v
  {
    if ratings == [] {
      assert ratings + [v] == [v];
    } else {
      assert (ratings + [v])[1..] == ratings[1..] + [v];
      SumAppend(ratings[1..], v);
    }
  }

  /** Posting a game result inside a table of ratings. */
  ghost function PostAt(pow10: real -> real, ratings: seq<real>, i: nat, j: nat, result: int): seq<real>
    requires IsPower(pow10) && i < |ratings| && j < |ratings| && i != j
  {
    var (n1, n2) := Post(pow10, ratings[i], ratings[j], result);
    ratings[i := n1][j := n2]
  }

  lemma PostAtConserves(pow10: real -> real, ratings: seq<real>, i: nat, j: nat, result: int)
    requires IsPower(pow10) && i < |ratings| && j < |ratings| && i != j && 0 <= result <= 2
    ensures Sum(PostAt(pow10, ratings, i, j, result)) == Sum(ratings)
  {
    var (n1, n2) := Post(pow10, ratings[i], ratings[j], result);
    SumUpdate(ratings, i, n1);
    SumUpdate(ratings[i := n1], j, n2);
    PostConserves(pow10, ratings[i], ratings[j], result);
  }
}
