/**
 What the operations come to for the two players, in the protocol's own terms: whose role is whose, who is
 told what, which cell changes, who has won, and whose rating rises.  Nothing here is said by way of the
 functions that the operations compute these with.
 */
module Rules {
  import opened Roles
  import opened Sealing
  import opened TicTacToe
  import opened Games
  import opened Elo
  import opened Players
  import opened Lobby
  import opened Operations
  import opened Worlds
  import opened WorldKept
  import opened Logout
  import opened Runs
  import opened RatingHistory
  import opened Texts

  // ---------------------------------------------------------------- lines

  function Row(cell: nat): int {
    cell / 3
  }

  function Column(cell: nat): int {
    cell % 3
  }

  /** The second cell lies half-way between the first and the third. */
  predicate Straight(a: nat, b: nat, c: nat) {
    && a < c < 9 && b < 9
    && Row(a) + Row(c) == 2 * Row(b) && Column(a) + Column(c) == 2 * Column(b)
  }

  /** There are eight of them. */
  lemma EightLines(a: nat, b: nat, c: nat)
    requires Straight(a, b, c)
    ensures (a, b, c) in [(0, 1, 2), (3, 4, 5), (6, 7, 8), (0, 3, 6), (1, 4, 7), (2, 5, 8), (0, 4, 8), (2, 4, 6)]
  {
    assert a == 3 * Row(a) + Column(a) && b == 3 * Row(b) + Column(b) && c == 3 * Row(c) + Column(c);
    assert 2 * b == a + c;
  }

  lemma StraightIsLine(cells: seq<Mark>, m: Mark, a: nat, b: nat, c: nat)
    requires |cells| == 9 && Straight(a, b, c) && cells[a] == cells[b] == cells[c] == m
    ensures OwnsLine(cells, m)
  {
    EightLines(a, b, c);
  }

  lemma LineIsStraight(cells: seq<Mark>, m: Mark) returns (a: nat, b: nat, c: nat)
    requires |cells| == 9 && OwnsLine(cells, m)
    ensures Straight(a, b, c) && cells[a] == cells[b] == cells[c] == m
  {
    if Three(cells, m, 0, 1, 2) {
      a, b, c := 0, 1, 2;
    } else if Three(cells, m, 3, 4, 5) {
      a, b, c := 3, 4, 5;
    } else if Three(cells, m, 6, 7, 8) {
      a, b, c := 6, 7, 8;
    } else if Three(cells, m, 0, 3, 6) {
      a, b, c := 0, 3, 6;
    } else if Three(cells, m, 1, 4, 7) {
      a, b, c := 1, 4, 7;
    } else if Three(cells, m, 2, 5, 8) {
      a, b, c := 2, 5, 8;
    } else if Three(cells, m, 0, 4, 8) {
      a, b, c := 0, 4, 8;
    } else {
      a, b, c := 2, 4, 6;
    }
  }

  /** A line is three marks in a straight row: one half-way between the two others. */
  lemma LinesAreStraight(cells: seq<Mark>, m: Mark)
    requires |cells| == 9
    ensures OwnsLine(cells, m) <==>
              exists a: nat, b: nat, c: nat :: Straight(a, b, c) && cells[a] == cells[b] == cells[c] == m
  {
    if OwnsLine(cells, m) {
      var a, b, c := LineIsStraight(cells, m);
    }
    forall a: nat, b: nat, c: nat | Straight(a, b, c) && cells[a] == cells[b] == cells[c] == m
      ensures OwnsLine(cells, m)
    {
      StraightIsLine(cells, m, a, b, c);
    }
  }

  // ---------------------------------------------------------------- ratings

  /** One player's rating rises and the other's falls, each by less than 32 points; no other changes. */
  predicate Rises(before: seq<real>, after: seq<real>, winner: nat, loser: nat) {
    && |after| == |before| && winner < |before| && loser < |before| && winner != loser
    && before[winner] < after[winner] < before[winner] + 32.0
    && before[loser] - 32.0 < after[loser] < before[loser]
    && forall k :: 0 <= k < |before| && k != winner && k != loser ==> after[k] == before[k]
  }

  /** Two ratings move by less than 16 points; no other changes. */
  predicate Levels(before: seq<real>, after: seq<real>, one: nat, other: nat) {
    && |after| == |before| && one < |before| && other < |before| && one != other
    && before[one] - 16.0 < after[one] < before[one] + 16.0
    && before[other] - 16.0 < after[other] < before[other] + 16.0
    && forall k :: 0 <= k < |before| && k != one && k != other ==> after[k] == before[k]
  }

  /** How a result posted for the players i and j changes the ratings: code 1 is won by i, code 2 by j. */
  lemma ResultRates(pow10: real -> real, ratings: seq<real>, i: nat, j: nat, result: int)
    requires IsPower(pow10) && i < |ratings| && j < |ratings| && i != j
    ensures result == 1 ==> Rises(ratings, PostAt(pow10, ratings, i, j, result), i, j)
    ensures result == 2 ==> Rises(ratings, PostAt(pow10, ratings, i, j, result), j, i)
    ensures result == 0 ==> Levels(ratings, PostAt(pow10, ratings, i, j, result), i, j)
  {
    PostGains(pow10, ratings[i], ratings[j]);
  }

  /** The ratings after the game of an invitation: of the party that won, or of both in a draw. */
  ghost predicate Settles(w: World, w': World, i: Invitation, winner: Client?) {
    && i.src in w.clients && i.target in w.clients
    && w.clients[i.src].player != null && w.clients[i.target].player != null
    && var p: Player := w.clients[i.src].player;
       var q: Player := w.clients[i.target].player;
       if winner == i.src then Rises(w.ratings, w'.ratings, p.id, q.id)
       else if winner == i.target then Rises(w.ratings, w'.ratings, q.id, p.id)
       else winner == null && Levels(w.ratings, w'.ratings, p.id, q.id)
  }

  /** The result on record: the two players, the one with the first role first, and 1, 2 or 0 for who won. */
  ghost predicate Recorded(w: World, p: Posted, i: Invitation, winner: Client?) {
    && i.src in w.clients && i.target in w.clients && p.inv == i
    && p.first == w.clients[if i.srcRole == First then i.src else i.target].player
    && p.second == w.clients[if i.srcRole == First then i.target else i.src].player
    && p.result == (if winner == null then 0 else if (winner == i.src) == (i.srcRole == First) then 1 else 2)
  }

  /** One packet about an invitation. */
  predicate Tells(s: Sent, to: Client, kind: Kind, role: Role, payload: Payload, i: Invitation) {
    && s.packet.fd == to.fd && s.packet.kind == kind && s.packet.role == role && s.packet.payload == payload
    && s.about.Some? && s.about.value.inv == i && s.about.value.to == to
  }

  /** The party that plays this role. */
  function Party(i: Invitation, role: Role): Client? {
    if role == NullRole then null else if i.srcRole == role then i.src else i.target
  }

  lemma GamePosted(w: World, before: World, i: Invitation, pow10: real -> real, role: Role)
    requires Good(before) && IsPower(pow10) && i in before.invs && InvOk(before, i)
    requires w.ratings == before.ratings
    ensures var w' := PostGame(w, before, i, pow10, role);
            && Settles(before, w', i, Party(i, role))
            && |w'.posts| == |w.posts| + 1 && Recorded(before, w'.posts[|w.posts|], i, Party(i, role))
  {
    assert Key(0);
    assert PlayerOk(before, i.src) && PlayerOk(before, i.target);
    var p: Player := before.clients[i.src].player;
    var q: Player := before.clients[i.target].player;
    var (f, s) := if i.srcRole == First then (p, q) else (q, p);
    ResultRates(pow10, w.ratings, f.id, s.id, if role == First then 1 else if role == Second then 2 else 0);
  }

  // ---------------------------------------------------------------- invitations

  /** The last packet of w', the only one since w. */
  ghost predicate OneTold(w: World, w': World, to: Client, kind: Kind, role: Role, payload: Payload, i: Invitation) {
    |w'.log| == |w.log| + 1 && Tells(w'.log[|w.log|], to, kind, role, payload, i)
  }

  /** What an operation's slot holds. */
  function Entry(w: World, op: Op): Invitation?
    requires op.Revoke? || op.Decline? || op.AcceptOp? || op.ResignOp? || op.MoveOp?
  {
    if op.c in w.clients && op.id < |w.clients[op.c].slots| then w.clients[op.c].slots[op.id] else null
  }

  /** The invitation is there, open. */
  predicate IsOpen(w: World, i: Invitation?) {
    i != null && i in w.invs && w.invs[i].game.None?
  }

  /** The invitation has a running game. */
  predicate IsPlayed(w: World, i: Invitation?) {
    i != null && i in w.invs && w.invs[i].game.Some?
  }

  /** When an invitation results, the invitee has the role of the request, FIRST or else SECOND, and is told so. */
  lemma InviteSides(w: World, op: Op, pow10: real -> real, w': World, r: int)
    requires op.Invite? && Takes(w, op, pow10, w', r) && w' != w
    ensures op.inv != null && op.target != null && op.inv.src == op.c && op.inv.target == op.target
    ensures op.c in w.clients && w.clients[op.c].player != null
    ensures op.role == First ==> op.inv.targetRole == First && op.inv.srcRole == Second
    ensures op.role != First ==> op.inv.targetRole == Second && op.inv.srcRole == First
    ensures OneTold(w, w', op.target, InvitedPkt, if op.role == First then First else Second,
                    Name(w.clients[op.c].player.name), op.inv)
    ensures IsOpen(w', op.inv) && (r == -1 <==> !op.ok)
  {
    assert Key(0);
    assert PlayerOk(w, op.c);
  }

  /** Only the source revokes, only while the invitation is open, and it is the target that is told. */
  lemma RevokeSides(w: World, op: Op, pow10: real -> real, w': World, r: int)
    requires op.Revoke? && Takes(w, op, pow10, w', r)
    ensures var i := Entry(w, op);
            if IsOpen(w, i) && op.c == i.src then
              && i !in w'.invs && OneTold(w, w', i.target, RevokedPkt, NullRole, Nothing, i)
              && r == if op.ok then 0 else -1
            else w' == w && r == -1
  {
    assert Key(0);
  }

  /** Only the target declines, only while the invitation is open, and it is the source that is told. */
  lemma DeclineSides(w: World, op: Op, pow10: real -> real, w': World, r: int)
    requires op.Decline? && Takes(w, op, pow10, w', r)
    ensures var i := Entry(w, op);
            if IsOpen(w, i) && op.c == i.target then
              && i !in w'.invs && OneTold(w, w', i.src, DeclinedPkt, NullRole, Nothing, i)
              && r == if op.ok then 0 else -1
            else w' == w && r == -1
  {
    assert Key(0);
    if Entry(w, op) != null {
      EntryOk(w, op.c, op.id);
    }
  }

  /** Nine blank cells, and the first player to move. */
  predicate Opening(p: Payload) {
    p.Position? && p.cells == [Blank, Blank, Blank, Blank, Blank, Blank, Blank, Blank, Blank] && p.turn == First
  }

  /**
   Only the target accepts, only while the invitation is open.  The source is told its own role; the board
   is shown to whoever plays FIRST and moves first, in the packet to the source or in the acknowledgement.
   */
  lemma AcceptSides(w: World, op: Op, pow10: real -> real, w': World, r: int)
    requires op.AcceptOp? && Takes(w, op, pow10, w', r)
    ensures var i := Entry(w, op);
            if IsOpen(w, i) && op.c == i.target then
              && IsPlayed(w', i) && !w'.invs[i].game.value.over && w'.invs[i].game.value.turn == First
              && w'.invs[i].game.value.cells == [Blank, Blank, Blank, Blank, Blank, Blank, Blank, Blank, Blank]
              && |w'.log| == |w.log| + 1
              && Tells(w'.log[|w.log|], i.src, AcceptedPkt, i.srcRole, w'.log[|w.log|].packet.payload, i)
              && (if i.srcRole == First then Opening(w'.log[|w.log|].packet.payload) && op.told == None
                  else w'.log[|w.log|].packet.payload == Nothing && op.told.Some? && Opening(op.told.value))
              && r == if op.ok then 0 else -1
            else w' == w && r == -1 && op.told == None
  {
    assert Key(0);
    if Entry(w, op) != null {
      EntryOk(w, op.c, op.id);
    }
    assert Initial().cells == [Blank, Blank, Blank, Blank, Blank, Blank, Blank, Blank, Blank];
  }

  /** A login succeeds exactly for a client without a user, when nobody connected is logged in as that user. */
  lemma LoginSides(w: World, op: Op, pow10: real -> real, w': World, r: int)
    requires op.LogIn? && Takes(w, op, pow10, w', r)
    ensures r == 0 || r == -1
    ensures r == 0 <==>
              && w.clients[op.c].player == null
              && forall d :: d in w.clients && w.clients[d].registered ==> w.clients[d].player != op.p
    ensures r == 0 ==> op.c in w'.clients && w'.clients[op.c].player == op.p
    ensures forall d :: d in w.clients && (d != op.c || r == -1) ==> d in w'.clients && w'.clients[d] == w.clients[d]
  {
  }

  // ---------------------------------------------------------------- the end of a game

  /** Three packets since w: the first of this kind, then ENDED to both, naming who has won. */
  ghost predicate EndTold(w: World, w': World, c: Client, other: Client, kind: Kind, payload: Payload, winner: Role,
                          i: Invitation) {
    && |w'.log| == |w.log| + 3
    && Tells(w'.log[|w.log|], other, kind, NullRole, payload, i)
    && Tells(w'.log[|w.log| + 1], c, EndedPkt, winner, Nothing, i)
    && Tells(w'.log[|w.log| + 2], other, EndedPkt, winner, Nothing, i)
  }

  /** One result since w. */
  ghost predicate OneRecorded(w: World, w': World, i: Invitation, winner: Client?) {
    |w'.posts| == |w.posts| + 1 && Recorded(w, w'.posts[|w.posts|], i, winner) && Settles(w, w', i, winner)
  }

  /**
   A resignation of a running game: the other party wins, whoever made the invitation.  It is told, both are
   told who has won, and the other party's rating rises and the resigning party's falls.
   */
  lemma ResignSides(w: World, op: Op, pow10: real -> real, w': World, r: int)
    requires op.ResignOp? && Takes(w, op, pow10, w', r)
    ensures var i := Entry(w, op);
            if IsPlayed(w, i) then
              && i !in w'.invs
              && (op.c == i.src ==>
                    EndTold(w, w', i.src, i.target, ResignedPkt, Nothing, i.targetRole, i)
                    && OneRecorded(w, w', i, i.target))
              && (op.c == i.target ==>
                    EndTold(w, w', i.target, i.src, ResignedPkt, Nothing, i.srcRole, i) && OneRecorded(w, w', i, i.src))
              && (op.c == i.src || op.c == i.target)
              && |op.oks| == 3 && r == if op.oks[2] then 0 else -1
            else w' == w && r == -1
  {
    var i := Entry(w, op);
    if IsPlayed(w, i) {
      ResignResults(w, op, pow10, w', r, i);
    } else {
      assert Key(0);
    }
  }

  lemma ResignResults(w: World, op: Op, pow10: real -> real, w': World, r: int, i: Invitation)
    requires op.ResignOp? && Takes(w, op, pow10, w', r) && i == Entry(w, op) && IsPlayed(w, i)
    ensures i !in w'.invs && (op.c == i.src || op.c == i.target) && i.src != i.target
    ensures |op.oks| == 3 && r == if op.oks[2] then 0 else -1
    ensures var (other, theirs) := if op.c == i.src then (i.target, i.targetRole) else (i.src, i.srcRole);
            EndTold(w, w', op.c, other, ResignedPkt, Nothing, theirs, i) && OneRecorded(w, w', i, other)
  {
    EntryOk(w, op.c, op.id);
    var (other, theirs) := if op.c == i.src then (i.target, i.targetRole) else (i.src, i.srcRole);
    assert Good(w) && IsPower(pow10) && (w', r) == Quit(w, op.c, op.id, op.oks, pow10) by {
      assert Key(0);
    }
    assert Party(i, theirs) == other;
    GamePosted(Detach(w, i).(log := w'.log), w, i, pow10, theirs);
  }

  // ---------------------------------------------------------------- moves

  /** The move is one: the player is in turn, and the string names a blank cell, alone or with the player's letter. */
  predicate Plays(g: Ttt, mine: Role, move: string, k: nat) {
    && 1 <= k <= 9 && |g.cells| == 9 && g.turn == mine && g.cells[k - 1] == Blank
    && Names(move, k, if mine == First then 'X' else 'O')
  }

  /**
   The move on cell k is made: the mark is an X exactly for FIRST, and the other party, now in turn, sees the
   position.  A line wins for the mover, and a full board without one is a draw: then both are told, the
   result goes on record, and the ratings follow.
   */
  ghost predicate MoveMade(w: World, w': World, i: Invitation, c: Client, mine: Role, other: Client, k: nat)
    requires IsPlayed(w, i) && |w.invs[i].game.value.cells| == 9 && 1 <= k <= 9
  {
    var mark := if mine == First then X else O;
    var cells := w.invs[i].game.value.cells[k - 1 := mark];
    var position := Position(cells, if mine == First then Second else First);
    if OwnsLine(cells, mark) then
      && i !in w'.invs && EndTold(w, w', c, other, MovedPkt, position, mine, i) && OneRecorded(w, w', i, c)
    else if Blank !in cells then
      && i !in w'.invs && EndTold(w, w', c, other, MovedPkt, position, NullRole, i) && OneRecorded(w, w', i, null)
    else
      && IsPlayed(w', i) && w'.invs[i].game.value.cells == cells && w'.invs[i].game.value.turn == position.turn
      && !w'.invs[i].game.value.over && OneTold(w, w', other, MovedPkt, NullRole, position, i)
      && w'.posts == w.posts && w'.ratings == w.ratings
  }

  /**
   A move is accepted exactly if it is one for the role of the party that makes it, which is the one the
   invitation gives to that party; otherwise nothing happens.
   */
  lemma MoveSides(w: World, op: Op, pow10: real -> real, w': World, r: int)
    requires op.MoveOp? && Takes(w, op, pow10, w', r) && '\0' !in op.move
    ensures var i := Entry(w, op);
            if IsPlayed(w, i) then
              var mine := if op.c == i.src then i.srcRole else i.targetRole;
              var other := if op.c == i.src then i.target else i.src;
              && |w.invs[i].game.value.cells| == 9 && i.src != i.target && (op.c == i.src || op.c == i.target)
              && if exists k: nat :: Plays(w.invs[i].game.value, mine, op.move, k) then
                   r == 0 && exists k: nat ::
                     Plays(w.invs[i].game.value, mine, op.move, k) && MoveMade(w, w', i, op.c, mine, other, k)
                 else w' == w && r == -1
            else w' == w && r == -1
  {
    var i := Entry(w, op);
    if IsPlayed(w, i) {
      var mine := if op.c == i.src then i.srcRole else i.targetRole;
      MoveFacts(w, op, pow10, w', r, i);
      var g := w.invs[i].game.value;
      if k: nat :| Plays(g, mine, op.move, k) {
        MoveDone(w, op, pow10, w', r, i, k);
      } else {
        MoveRefused(w, op, pow10, w', r, i);
      }
    } else {
      assert Key(0);
    }
  }

  lemma MoveFacts(w: World, op: Op, pow10: real -> real, w': World, r: int, i: Invitation)
    requires op.MoveOp? && Takes(w, op, pow10, w', r) && i == Entry(w, op) && IsPlayed(w, i)
    ensures InvOk(w, i) && (op.c == i.src || op.c == i.target) && RoleOf(i, op.c) != NullRole
    ensures Sound(w.invs[i].game.value) && !w.invs[i].game.value.over
    ensures Good(w) && IsPower(pow10) && (Playable(w, op.c, op.id, op.move) ==> |op.oks| == 3)
    ensures (w', r) == Advance(w, op.c, op.id, op.move, op.oks, pow10)
  {
    EntryOk(w, op.c, op.id);
    assert Key(0) && Worlds.GameOk(w, i);
  }

  lemma MoveRefused(w: World, op: Op, pow10: real -> real, w': World, r: int, i: Invitation)
    requires op.MoveOp? && Takes(w, op, pow10, w', r) && i == Entry(w, op) && IsPlayed(w, i) && '\0' !in op.move
    requires var mine := if op.c == i.src then i.srcRole else i.targetRole;
             forall k: nat :: !Plays(w.invs[i].game.value, mine, op.move, k)
    ensures w' == w && r == -1
  {
    MoveFacts(w, op, pow10, w', r, i);
    var g, mine := w.invs[i].game.value, if op.c == i.src then i.srcRole else i.targetRole;
    var m := MoveIn(g, mine, op.move);
    if m.Some? {
      MoveReads(g, mine, op.move, 1);
      MoveReads(g, mine, op.move, m.value.num);
      assert Plays(g, mine, op.move, m.value.num);
    }
  }

  lemma MoveDone(w: World, op: Op, pow10: real -> real, w': World, r: int, i: Invitation, k: nat)
    requires op.MoveOp? && Takes(w, op, pow10, w', r) && i == Entry(w, op) && IsPlayed(w, i) && '\0' !in op.move
    requires Plays(w.invs[i].game.value, if op.c == i.src then i.srcRole else i.targetRole, op.move, k)
    ensures var (mine, other) := if op.c == i.src then (i.srcRole, i.target) else (i.targetRole, i.src);
            r == 0 && MoveMade(w, w', i, op.c, mine, other, k)
  {
    MoveFacts(w, op, pow10, w', r, i);
    var g, mine := w.invs[i].game.value, if op.c == i.src then i.srcRole else i.targetRole;
    var other := if op.c == i.src then i.target else i.src;
    MoveReads(g, mine, op.move, k);
    var g' := Play(g, mine, k - 1);
    assert MoveIn(g, mine, op.move).value.num == k && other == OtherParty(i, op.c) && mine == RoleOf(i, op.c);
    if g'.over {
      MoveEnds(w, op, pow10, w', r, i, mine, other, k);
    } else {
      MoveContinues(w, op, pow10, w', r, i, mine, other, k);
    }
  }

  lemma MoveEnds(w: World, op: Op, pow10: real -> real, w': World, r: int, i: Invitation, mine: Role, other: Client,
                 k: nat)
    requires op.MoveOp? && Takes(w, op, pow10, w', r) && i == Entry(w, op) && IsPlayed(w, i)
    requires mine == RoleOf(i, op.c) && other == OtherParty(i, op.c) && 1 <= k <= 9
    requires MoveIn(w.invs[i].game.value, mine, op.move).Some?
      && MoveIn(w.invs[i].game.value, mine, op.move).value.num == k
    requires |w.invs[i].game.value.cells| == 9 && Play(w.invs[i].game.value, mine, k - 1).over
    ensures r == 0 && MoveMade(w, w', i, op.c, mine, other, k)
  {
    MoveFacts(w, op, pow10, w', r, i);
    var g' := Play(w.invs[i].game.value, mine, k - 1);
    assert Party(i, mine) == op.c;
    GamePosted(Detach(w, i).(log := w'.log), w, i, pow10, g'.winner);
  }

  lemma MoveContinues(w: World, op: Op, pow10: real -> real, w': World, r: int, i: Invitation, mine: Role,
                      other: Client,
                      k: nat)
    requires op.MoveOp? && Takes(w, op, pow10, w', r) && i == Entry(w, op) && IsPlayed(w, i)
    requires mine == RoleOf(i, op.c) && other == OtherParty(i, op.c) && 1 <= k <= 9
    requires MoveIn(w.invs[i].game.value, mine, op.move).Some?
      && MoveIn(w.invs[i].game.value, mine, op.move).value.num == k
    requires |w.invs[i].game.value.cells| == 9 && !Play(w.invs[i].game.value, mine, k - 1).over
    ensures r == 0 && MoveMade(w, w', i, op.c, mine, other, k)
  {
    MoveFacts(w, op, pow10, w', r, i);
  }

  // ---------------------------------------------------------------- logging out

  /** A result somebody has won, and who has lost. */
  predicate LostBy(p: Posted, player: nat) {
    (p.result == 1 && p.second.id == player) || (p.result == 2 && p.first.id == player)
  }

  /** Results that one player has all lost lower nobody else's rating, and that player's at each of them. */
  lemma {:induction false} LosingLowers(pow10: real -> real, n: nat, posts: seq<Posted>, m: nat, loser: nat)
    requires IsPower(pow10) && m <= |posts| && loser < n && forall k :: 0 <= k < |posts| ==> Among(posts[k], n)
    requires forall k :: m <= k < |posts| ==> LostBy(posts[k], loser)
    ensures var (before, after) := (Replayed(pow10, n, posts[..m]), Replayed(pow10, n, posts));
            && (forall q :: 0 <= q < n && q != loser ==> after[q] >= before[q])
            && (if m < |posts| then after[loser] < before[loser] else after == before)
  {
    if m == |posts| {
      assert posts[..m] == posts;
    } else {
      var last := |posts| - 1;
      OneLoss(pow10, n, posts, loser);
      LosingLowers(pow10, n, posts[..last], m, loser);
      assert posts[..last][..m] == posts[..m];
    }
  }

  lemma OneLoss(pow10: real -> real, n: nat, posts: seq<Posted>, loser: nat)
    requires IsPower(pow10) && posts != [] && loser < n && forall k :: 0 <= k < |posts| ==> Among(posts[k], n)
    requires LostBy(posts[|posts| - 1], loser)
    ensures var (before, after) := (Replayed(pow10, n, posts[..|posts| - 1]), Replayed(pow10, n, posts));
            after[loser] < before[loser] && forall q :: 0 <= q < n && q != loser ==> after[q] >= before[q]
  {
    var p := posts[|posts| - 1];
    assert Among(p, n);
    ResultRates(pow10, Replayed(pow10, n, posts[..|posts| - 1]), p.first.id, p.second.id, p.result);
  }

  /** A result posted by whoever logs out: the opponent has won. */
  lemma LoggedOutPost(w: World, op: Op, p: Posted)
    requires Good(w) && op.LogOutOp? && PostRight(w, op, p) && p.inv in w.invs
    ensures op.c in w.clients && w.clients[op.c].player != null && p.inv.src != p.inv.target
    ensures op.c == p.inv.src ==> Recorded(w, p, p.inv, p.inv.target)
    ensures op.c == p.inv.target ==> Recorded(w, p, p.inv, p.inv.src)
    ensures LostBy(p, w.clients[op.c].player.id)
  {
    assert InvOk(w, p.inv) by {
      assert Key(0);
    }
  }

  /**
   A logout: every result posted names the opponent as winner; nobody else's rating falls, and the client's
   own falls if a game of its was running.
   */
  lemma LogOutSides(ws: seq<World>, ops: seq<Op>, rs: seq<int>, pow10: real -> real, j: nat)
    requires IsRun(ws, ops, rs, pow10) && IsPower(pow10) && j < |ops| && ops[j].LogOutOp?
    ensures var (w, w', c) := (ws[j], ws[j + 1], ops[j].c);
            && c in w.clients && w.clients[c].player != null && w.clients[c].player.id < |w.ratings| == |w'.ratings|
            && w.posts <= w'.posts
            && (forall n :: |w.posts| <= n < |w'.posts| ==>
                  var i := w'.posts[n].inv;
                  && (c == i.src || c == i.target) && i.src != i.target
                  && Recorded(w, w'.posts[n], i, if c == i.src then i.target else i.src))
            && (forall q :: 0 <= q < |w.ratings| && q != w.clients[c].player.id ==> w'.ratings[q] >= w.ratings[q])
            && if |w'.posts| > |w.posts| then w'.ratings[w.clients[c].player.id] < w.ratings[w.clients[c].player.id]
               else w'.ratings == w.ratings
  {
    var (w, w', c) := (ws[j], ws[j + 1], ops[j].c);
    LogOutFacts(ws, ops, rs, pow10, j);
    var me := w.clients[c].player.id;
    forall n | |w.posts| <= n < |w'.posts|
      ensures LostBy(w'.posts[n], me)
      ensures var i := w'.posts[n].inv;
              && (c == i.src || c == i.target) && i.src != i.target
              && Recorded(w, w'.posts[n], i, if c == i.src then i.target else i.src)
    {
      assert PostRight(w, ops[j], w'.posts[n]);
      LoggedOutPost(w, ops[j], w'.posts[n]);
    }
    assert w'.posts[..|w.posts|] == w.posts;
    LosingLowers(pow10, |w.players|, w'.posts, |w.posts|, me);
  }

  lemma LogOutFacts(ws: seq<World>, ops: seq<Op>, rs: seq<int>, pow10: real -> real, j: nat)
    requires IsRun(ws, ops, rs, pow10) && IsPower(pow10) && j < |ops| && ops[j].LogOutOp?
    ensures var (w, w', op) := (ws[j], ws[j + 1], ops[j]);
            && Good(w) && w.posts <= w'.posts && w'.players == w.players
            && Replays(w, pow10) && Replays(w', pow10)
            && op.c in w.clients && w.clients[op.c].player != null && w.clients[op.c].player.id < |w.ratings|
            && forall n :: |w.posts| <= n < |w'.posts| ==> PostRight(w, op, w'.posts[n])
  {
    RunGood(ws, ops, rs, pow10, j);
    RatingsAreTheReplay(ws, ops, rs, pow10, j);
    RatingsAreTheReplay(ws, ops, rs, pow10, j + 1);
    assert Takes(ws[j], ops[j], pow10, ws[j + 1], rs[j]);
    StepOnward(ws[j], ops[j], pow10, ws[j + 1], rs[j]);
    StepPosts(ws[j], ops[j], pow10, ws[j + 1], rs[j]);
    LoggedOutSame(ws[j], ops[j], pow10, ws[j + 1]);
  }

  lemma LoggedOutSame(w: World, op: Op, pow10: real -> real, w': World)
    requires op.LogOutOp? && LogsOut(w, op.c, op.outs, pow10, w') && op.c in w.clients && w.clients[op.c].player != null
    ensures w'.players == w.players && w.clients[op.c].player.id < |w.players|
  {
    assert Key(0);
    assert PlayerOk(w, op.c);
    assert Cleared(w, ClearAll(w, op.c, op.outs, pow10), op.c, CAP);
  }
}
