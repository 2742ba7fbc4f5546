/** The ratings at any time are what the results posted so far make of 1500 each. */
module RatingHistory {
  import opened Roles
  import opened Sealing
  import opened Games
  import opened TicTacToe
  import opened Elo
  import opened Players
  import opened Lobby
  import opened Operations
  import opened Worlds
  import opened Logout
  import opened Runs

  /** The two players are two of the first n. */
  predicate Among(p: Posted, n: nat) {
    p.first.id < n && p.second.id < n && p.first.id != p.second.id
  }

  /** The ratings of n players after the results, one after the other. */
  ghost function Replayed(pow10: real -> real, n: nat, posts: seq<Posted>): (rs: seq<real>)
    requires IsPower(pow10) && forall k :: 0 <= k < |posts| ==> Among(posts[k], n)
    ensures |rs| == n
  {
    if posts == [] then seq(n, _ => INITIAL_RATING)
    else
      var p := posts[|posts| - 1];
      assert Among(p, n);
      PostAt(pow10, Replayed(pow10, n, posts[..|posts| - 1]), p.first.id, p.second.id, p.result)
  }

  ghost predicate Replays(w: World, pow10: real -> real) {
    && IsPower(pow10) && |w.ratings| == |w.players|
    && (forall k :: 0 <= k < |w.posts| ==> Among(w.posts[k], |w.players|))
    && w.ratings == Replayed(pow10, |w.players|, w.posts)
  }

  /** A new player does not change what the earlier results mean. */
  lemma {:induction false} OnePlayerMore(pow10: real -> real, n: nat, posts: seq<Posted>)
    requires IsPower(pow10) && forall k :: 0 <= k < |posts| ==> Among(posts[k], n)
    ensures forall k :: 0 <= k < |posts| && Among(posts[k], n) ==> Among(posts[k], n + 1)
    ensures Replayed(pow10, n + 1, posts) == Replayed(pow10, n, posts) + [INITIAL_RATING]
  {
    assert forall k :: 0 <= k < |posts| && Among(posts[k], n) ==> Among(posts[k], n + 1);
    if posts != [] {
      var before := posts[..|posts| - 1];
      var p := posts[|posts| - 1];
      assert Among(p, n);
      OnePlayerMore(pow10, n, before);
      PostAtLonger(pow10, Replayed(pow10, n, before), INITIAL_RATING, p.first.id, p.second.id, p.result);
    }
  }

  lemma PostAtLonger(pow10: real -> real, rs: seq<real>, v: real, i: nat, j: nat, result: int)
    requires IsPower(pow10) && i < |rs| && j < |rs| && i != j
    ensures PostAt(pow10, rs + [v], i, j, result) == PostAt(pow10, rs, i, j, result) + [v]
  {
  }

  /** The result of a game is one step of the replay. */
  lemma PostReplays(w: World, before: World, i: Invitation, pow10: real -> real, winner: Role)
    requires Good(before) && i in before.invs && Replays(w, pow10) && w.players == before.players
    ensures InvOk(before, i) && Replays(PostGame(w, before, i, pow10, winner), pow10)
  {
    assert Key(0);
    assert InvOk(before, i) && Worlds.PlayerOk(before, i.src) && Worlds.PlayerOk(before, i.target);
    var w' := PostGame(w, before, i, pow10, winner);
    assert w'.posts[..|w'.posts| - 1] == w.posts;
  }

  /** An operation that neither posts nor adds a player. */
  lemma QuietReplays(w: World, w': World, pow10: real -> real)
    requires Replays(w, pow10) && w'.players == w.players && w'.ratings == w.ratings && w'.posts == w.posts
    ensures Replays(w', pow10)
  {
  }

  lemma QuitReplays(w: World, c: Client, id: nat, oks: seq<bool>, pow10: real -> real)
    requires Ready(w, c, id) && IsPower(pow10) && |oks| == 3 && Replays(w, pow10)
    ensures Replays(Quit(w, c, id, oks, pow10).0, pow10)
  {
    if InGame(w, c, id) {
      EntryOk(w, c, id);
      var i: Invitation := w.clients[c].slots[id];
      var log := Quit(w, c, id, oks, pow10).0.log;
      var d := Detach(w, i).(log := log);
      QuietReplays(w, d, pow10);
      PostReplays(d, w, i, pow10, Concede(w.invs[i].game.value, RoleOf(i, c)).winner);
    }
  }

  lemma WithdrawReplays(w: World, c: Client, id: nat, asSource: bool, ok: bool, pow10: real -> real)
    requires Ready(w, c, id) && Replays(w, pow10)
    ensures Replays(Withdraw(w, c, id, asSource, ok).0, pow10)
  {
    QuietReplays(w, Withdraw(w, c, id, asSource, ok).0, pow10);
  }

  lemma AdvanceReplays(w: World, c: Client, id: nat, move: string, oks: seq<bool>, pow10: real -> real)
    requires Ready(w, c, id) && IsPower(pow10) && (Playable(w, c, id, move) ==> |oks| == 3) && Replays(w, pow10)
    ensures Replays(Advance(w, c, id, move, oks, pow10).0, pow10)
  {
    var w' := Advance(w, c, id, move, oks, pow10).0;
    if Playable(w, c, id, move) {
      EntryOk(w, c, id);
      var i: Invitation := w.clients[c].slots[id];
      var g := w.invs[i].game.value;
      var g' := Play(g, RoleOf(i, c), MoveIn(g, RoleOf(i, c), move).value.num - 1);
      if g'.over {
        var d := Detach(w, i).(log := w'.log);
        QuietReplays(w, d, pow10);
        PostReplays(d, w, i, pow10, g'.winner);
      } else {
        QuietReplays(w, w', pow10);
      }
    }
  }

  lemma SlotReplays(w: World, c: Client, k: nat, o: Outcome, pow10: real -> real)
    requires Ready(w, c, k) && IsPower(pow10) && Replays(w, pow10)
    ensures Replays(ClearSlot(w, c, k, o, pow10), pow10)
  {
    var oks := [o.resigned, o.ended, o.endedOther];
    QuitReplays(w, c, k, oks, pow10);
    QuitEmpties(w, c, k, oks, pow10);
    var w1 := Quit(w, c, k, oks, pow10).0;
    WithdrawReplays(w1, c, k, true, o.revoked, pow10);
    WithdrawEmpties(w1, c, k, true, o.revoked);
    WithdrawReplays(Withdraw(w1, c, k, true, o.revoked).0, c, k, false, o.declined, pow10);
  }

  lemma {:induction false} SlotsReplay(w: World, c: Client, outs: seq<Outcome>, pow10: real -> real)
    requires Good(w) && c in w.clients && w.clients[c].registered && |outs| <= CAP && Replays(w, pow10)
    ensures Replays(ClearAll(w, c, outs, pow10), pow10)
    decreases |outs|
  {
    if outs != [] {
      var n := |outs| - 1;
      SlotsReplay(w, c, outs[..n], pow10);
      SlotReplays(ClearAll(w, c, outs[..n], pow10), c, n, outs[n], pow10);
    }
  }

  lemma EnrollReplays(w: World, p: Player, pow10: real -> real)
    requires Replays(w, pow10)
    ensures Replays(Enroll(w, p), pow10)
  {
    forall k | 0 <= k < |w.posts|
      ensures Among(w.posts[k], |w.players| + 1)
    {
      assert Among(w.posts[k], |w.players|);
    }
    OnePlayerMore(pow10, |w.players|, w.posts);
  }

  lemma LogOutReplays(w: World, c: Client, outs: seq<Outcome>, pow10: real -> real, w': World)
    requires LogsOut(w, c, outs, pow10, w') && Replays(w, pow10)
    ensures Replays(w', pow10)
  {
    assert Key(0);
    SlotsReplay(w, c, outs, pow10);
    QuietReplays(ClearAll(w, c, outs, pow10), w', pow10);
  }

  lemma ResignReplays(w: World, c: Client, id: nat, oks: seq<bool>, pow10: real -> real, w': World, r: int)
    requires Ready(w, c, id) && Quits(w, c, id, oks, pow10, w', r) && Replays(w, pow10)
    ensures Replays(w', pow10)
  {
    assert Key(0);
    QuitReplays(w, c, id, if InGame(w, c, id) then oks else [false, false, false], pow10);
  }

  lemma MoveReplays(w: World, c: Client, id: nat, move: string, oks: seq<bool>, pow10: real -> real, w': World, r: int)
    requires Ready(w, c, id) && Advances(w, c, id, move, oks, pow10, w', r) && Replays(w, pow10)
    ensures Replays(w', pow10)
  {
    assert Key(0);
    AdvanceReplays(w, c, id, move, oks, pow10);
  }

  lemma InviteReplays(w: World, op: Op, pow10: real -> real, w': World, r: int)
    requires op.Invite? && Good(w) && Takes(w, op, pow10, w', r) && Replays(w, pow10)
    ensures Replays(w', pow10)
  {
    assert Key(0);
    QuietReplays(w, w', pow10);
  }

  lemma StepReplays(w: World, op: Op, pow10: real -> real, w': World, r: int)
    requires Good(w) && Takes(w, op, pow10, w', r) && Replays(w, pow10)
    ensures Replays(w', pow10)
  {
    match op
    case Register(p) => EnrollReplays(w, p, pow10);
    case ResignOp(c, id, oks) => ResignReplays(w, c, id, oks, pow10, w', r);
    case MoveOp(c, id, move, oks) => MoveReplays(w, c, id, move, oks, pow10, w', r);
    case LogOutOp(c, outs) => LogOutReplays(w, c, outs, pow10, w');
    case Invite(_, _, _, _, _, _) => InviteReplays(w, op, pow10, w', r);
    case _ =>
      assert Key(0);
      QuietReplays(w, w', pow10);
  }

  /** In every reachable state the ratings are the replay of all results posted, from 1500 each. */
  lemma {:induction false} RatingsAreTheReplay(ws: seq<World>, ops: seq<Op>, rs: seq<int>, pow10: real -> real, k: nat)
    requires IsRun(ws, ops, rs, pow10) && IsPower(pow10) && k < |ws|
    ensures Replays(ws[k], pow10)
  {
    if k > 0 {
      RatingsAreTheReplay(ws, ops, rs, pow10, k - 1);
      RunGood(ws, ops, rs, pow10, k - 1);
      StepReplays(ws[k - 1], ops[k - 1], pow10, ws[k], rs[k - 1]);
    }
  }
}
