/**
 Logging out (src/client.c:223-243): for every slot, resign; failing that, revoke; failing that,
 decline.  A failed transmission makes a call report failure although it did its work, so the later
 calls may be tried on a slot that is empty by then.
 */
module Logout {
  import opened Roles
  import opened Sealing
  import opened Slots
  import opened TicTacToe
  import opened Games
  import opened Elo
  import opened Players
  import opened Lobby
  import opened Operations
  import opened Worlds
  import opened WorldKept

  /** Whether the packets of one slot's three calls go out, should they be sent. */
  datatype Outcome = Outcome(resigned: bool, ended: bool, endedOther: bool, revoked: bool, declined: bool)

  /** The client is logged in and registered as before. */
  predicate SameLogin(w: World, w': World, c: Client)
    requires c in w.clients && c in w'.clients
  {
    w'.clients[c].player == w.clients[c].player && w'.clients[c].registered == w.clients[c].registered
  }

  /** A registered client keeps its entry when an invitation leaves; its own slot is emptied, if it was a party. */
  lemma DetachKeepsClient(w: World, i: Invitation, c: Client)
    requires Good(w) && i in w.invs && c in w.clients && w.clients[c].registered
    ensures InvOk(w, i) && c in Detach(w, i).clients
    ensures Detach(w, i).clients[c].registered && Detach(w, i).clients[c].player == w.clients[c].player
    ensures forall d :: d in Detach(w, i).clients ==> d in w.clients && SameLogin(w, Detach(w, i), d)
    ensures forall d :: d in w.clients && w.clients[d].registered ==>
      d in Detach(w, i).clients && Detach(w, i).clients[d].registered
    ensures Detach(w, i).clients[c].slots
         == if c == i.src || c == i.target then w.clients[c].slots[SlotIn(w.invs[i], i, c) := null]
             else w.clients[c].slots
  {
    assert Key(0);
    assert InvOk(w, i);
  }

  /** What is true of c and the slot before any of the three calls. */
  ghost predicate Ready(w: World, c: Client, k: nat) {
    Good(w) && Indexes(w, c, k) && w.clients[c].registered
  }

  /** What was sent between the two states was about invitations that are gone, and says who was connected. */
  ghost predicate Farewells(w: World, w': World) {
    && w.log <= w'.log
    && forall k :: |w.log| <= k < |w'.log| ==>
         && w'.log[k].about.Some? && w'.log[k].about.value.inv !in w'.invs
         && w'.log[k].about.value.to in w.clients
         && w'.log[k].about.value.connected == w.clients[w'.log[k].about.value.to].registered
  }

  /** The slot is empty and the invitation that was in it is gone; nothing else about c changed. */
  ghost predicate Emptied(w: World, w': World, c: Client, k: nat) {
    && Ready(w, c, k) && Ready(w', c, k)
    && w'.clients[c].player == w.clients[c].player
    && w'.clients[c].slots == w.clients[c].slots[k := null]
    && w'.players == w.players && |w'.ratings| == |w.ratings|
    && (forall d :: d in w'.clients ==> d in w.clients && SameLogin(w, w', d))
    && (forall d :: d in w.clients && w.clients[d].registered ==> d in w'.clients && w'.clients[d].registered)
    && Farewells(w, w')
    && var i := w.clients[c].slots[k];
       if i == null then w'.invs == w.invs && w'.posts == w.posts
       else i in w.invs && w'.invs == w.invs - {i} && w'.posts == w.posts + Results(w, c, k)
  }

  /** The result a resignation at this slot posts: the opponent wins. */
  ghost function Results(w: World, c: Client, k: nat): seq<Posted>
    requires Ready(w, c, k)
  {
    if !InGame(w, c, k) then []
    else
      var i: Invitation := w.clients[c].slots[k];
      assert Key(0) && InvOk(w, i) && Worlds.TableOk(w, c) && SlotOk(w, c, k);
      var p: Player := w.clients[i.src].player;
      var q: Player := w.clients[i.target].player;
      [Posted(if i.srcRole == First then p else q, if i.srcRole == First then q
          else p, ResultCode(Opponent(RoleOf(i, c))), i)]
  }

  /** What slot k of a ready client holds. */
  lemma EntryOk(w: World, c: Client, k: nat)
    requires Ready(w, c, k) && w.clients[c].slots[k] != null
    ensures var i := w.clients[c].slots[k];
            i in w.invs && InvOk(w, i) && (c == i.src || c == i.target) && SlotIn(w.invs[i], i, c) == k
  {
    assert Key(0);
    assert Worlds.TableOk(w, c) && SlotOk(w, c, k);
    assert InvOk(w, w.clients[c].slots[k]);
  }

  lemma QuitEmpties(w: World, c: Client, k: nat, oks: seq<bool>, pow10: real -> real)
    requires Ready(w, c, k) && IsPower(pow10) && |oks| == 3
    ensures Ready(Quit(w, c, k, oks, pow10).0, c, k)
    ensures InGame(w, c, k) ==> Emptied(w, Quit(w, c, k, oks, pow10).0, c, k)
    ensures !InGame(w, c, k) ==> Quit(w, c, k, oks, pow10) == (w, -1)
  {
    QuitInv(w, c, k, oks, pow10);
    if InGame(w, c, k) {
      EntryOk(w, c, k);
      DetachKeepsClient(w, w.clients[c].slots[k], c);
    }
  }

  lemma WithdrawEmpties(w: World, c: Client, k: nat, asSource: bool, ok: bool)
    requires Ready(w, c, k)
    ensures Ready(Withdraw(w, c, k, asSource, ok).0, c, k)
    ensures Withdrawable(w, c, k, asSource) ==> Emptied(w, Withdraw(w, c, k, asSource, ok).0, c, k)
    ensures !Withdrawable(w, c, k, asSource) ==> Withdraw(w, c, k, asSource, ok) == (w, -1)
  {
    WithdrawInv(w, c, k, asSource, ok);
    if Withdrawable(w, c, k, asSource) {
      EntryOk(w, c, k);
      DetachKeepsClient(w, w.clients[c].slots[k], c);
    }
  }

  /** The three calls on one slot. */
  ghost function ClearSlot(w: World, c: Client, k: nat, o: Outcome, pow10: real -> real): World
    requires Ready(w, c, k) && IsPower(pow10)
  {
    var oks := [o.resigned, o.ended, o.endedOther];
    var (w1, r1) := Quit(w, c, k, oks, pow10);
    if r1 != -1 then w1
    else
      QuitEmpties(w, c, k, oks, pow10);
      var (w2, r2) := Withdraw(w1, c, k, true, o.revoked);
      if r2 != -1 then w2
      else
        WithdrawEmpties(w1, c, k, true, o.revoked);
        Withdraw(w2, c, k, false, o.declined).0
  }

  /** Whatever was in the slot and however the transmissions went, the slot is emptied, once. */
  lemma SlotCleared(w: World, c: Client, k: nat, o: Outcome, pow10: real -> real)
    requires Ready(w, c, k) && IsPower(pow10)
    ensures Emptied(w, ClearSlot(w, c, k, o, pow10), c, k)
  {
    var oks := [o.resigned, o.ended, o.endedOther];
    var w1 := Quit(w, c, k, oks, pow10).0;
    QuitEmpties(w, c, k, oks, pow10);
    WithdrawEmpties(w1, c, k, true, o.revoked);
    var w2 := Withdraw(w1, c, k, true, o.revoked).0;
    WithdrawEmpties(w2, c, k, false, o.declined);
    if w.clients[c].slots[k] != null {
      EntryOk(w, c, k);
    } else {
      assert w.clients[c].slots == w.clients[c].slots[k := null];
    }
  }

  /** All results posted by clearing the first n slots. */
  ghost function AllResults(w: World, c: Client, n: nat): seq<Posted>
    requires Good(w) && c in w.clients && w.clients[c].registered && n <= |w.clients[c].slots|
  {
    if n == 0 then [] else AllResults(w, c, n - 1) + Results(w, c, n - 1)
  }

  /** The invitation stands between c, by one of its first n slots, and somebody else. */
  predicate Involves(w: World, i: Invitation, c: Client, n: nat)
    requires i in w.invs
  {
    (i.src == c || i.target == c) && SlotIn(w.invs[i], i, c) < n
  }

  /** The first n slots of c are cleared: which invitations remain, and what was posted. */
  ghost predicate Cleared(w: World, w': World, c: Client, n: nat) {
    && Good(w) && Good(w') && c in w.clients && c in w'.clients && w.clients[c].registered && w'.clients[c].registered
    && |w.clients[c].slots| == |w'.clients[c].slots| == CAP && n <= CAP
    && (forall d :: d in w'.clients ==> d in w.clients && SameLogin(w, w', d))
    && (forall d :: d in w.clients && w.clients[d].registered ==> d in w'.clients && w'.clients[d].registered)
    && Farewells(w, w')
    && (forall k :: 0 <= k < n ==> w'.clients[c].slots[k] == null)
    && (forall k :: n <= k < CAP ==> w'.clients[c].slots[k] == w.clients[c].slots[k])
    && (forall i :: i in w'.invs ==> i in w.invs && !Involves(w, i, c, n) && w'.invs[i] == w.invs[i])
    && (forall i :: i in w.invs && !Involves(w, i, c, n) ==> i in w'.invs)
    && w'.players == w.players && |w'.ratings| == |w.ratings|
    && w'.posts == w.posts + AllResults(w, c, n)
  }

  lemma ResultsKept(w: World, v: World, c: Client, n: nat)
    requires Cleared(w, v, c, n) && n < CAP
    ensures Results(v, c, n) == Results(w, c, n)
  {
    assert v.clients[c].slots[n] == w.clients[c].slots[n];
    if w.clients[c].slots[n] != null {
      EntryOk(w, c, n);
      EntryOk(v, c, n);
    }
  }

  /** The slots of c and the invitations naming it determine each other. */
  lemma InvolvesNext(w: World, c: Client, n: nat, i: Invitation)
    requires Ready(w, c, n) && i in w.invs
    ensures Involves(w, i, c, n + 1) <==> Involves(w, i, c, n) || w.clients[c].slots[n] == i
  {
    if w.clients[c].slots[n] == i {
      EntryOk(w, c, n);
    }
    assert InvOk(w, i) by {
      assert Key(0);
    }
  }

  /** One more slot. */
  lemma ClearedOneMore(w: World, v: World, w': World, c: Client, n: nat)
    requires Cleared(w, v, c, n) && n < CAP && Emptied(v, w', c, n)
    ensures Cleared(w, w', c, n + 1)
  {
    ResultsKept(w, v, c, n);
    assert v.clients[c].slots[n] == w.clients[c].slots[n];
    forall i | i in w.invs
      ensures Involves(w, i, c, n + 1) <==> Involves(w, i, c, n) || w.clients[c].slots[n] == i
    {
      InvolvesNext(w, c, n, i);
    }
  }

  /** The loop over the slots. */
  ghost function ClearAll(w: World, c: Client, outs: seq<Outcome>, pow10: real -> real): (w': World)
    requires Good(w) && c in w.clients && w.clients[c].registered && |outs| <= CAP && IsPower(pow10)
    ensures Cleared(w, w', c, |outs|)
    decreases |outs|
  {
    if outs == [] then
      ClearedNone(w, c);
      w
    else
      var n := |outs| - 1;
      var v := ClearAll(w, c, outs[..n], pow10);
      SlotCleared(v, c, n, outs[n], pow10);
      ClearedOneMore(w, v, ClearSlot(v, c, n, outs[n], pow10), c, n);
      ClearSlot(v, c, n, outs[n], pow10)
  }

  lemma ClearedNone(w: World, c: Client)
    requires Good(w) && c in w.clients && w.clients[c].registered
    ensures Cleared(w, w, c, 0)
  {
    assert Key(0);
    assert Worlds.TableOk(w, c);
  }

  /** client_logout of a logged-in client. */
  ghost function LogOut(w: World, c: Client, outs: seq<Outcome>, pow10: real -> real): World
    requires Good(w) && c in w.clients && w.clients[c].registered && |outs| == CAP && IsPower(pow10)
  {
    Leave(ClearAll(w, c, outs, pow10), c)
  }

  /** ClearSlot as a relation, kept folded. */
  ghost predicate ClearsSlot(w: World, c: Client, k: nat, o: Outcome, pow10: real -> real, w': World) {
    forall key {:trigger Key(key)} :: Key(key) ==>
        Ready(w, c, k) && IsPower(pow10) && w' == ClearSlot(w, c, k, o, pow10)
  }

  /** ClearAll as a relation, kept folded. */
  ghost predicate ClearsAll(w: World, c: Client, outs: seq<Outcome>, pow10: real -> real, w': World) {
    forall key {:trigger Key(key)} :: Key(key) ==>
      && Good(w) && c in w.clients && w.clients[c].registered && |outs| <= CAP && IsPower(pow10)
      && w' == ClearAll(w, c, outs, pow10)
  }

  /** After a resignation attempt the client is still there, registered. */
  lemma QuitsReady(w: World, c: Client, k: nat, oks: seq<bool>, pow10: real -> real, w': World, r: int)
    requires Quits(w, c, k, oks, pow10, w', r) && c in w.clients && w.clients[c].registered
    ensures Ready(w', c, k)
  {
    assert Key(0);
    QuitEmpties(w, c, k, if InGame(w, c, k) then oks else [false, false, false], pow10);
  }

  lemma WithdrawsReady(w: World, c: Client, k: nat, asSource: bool, ok: bool, w': World, r: int)
    requires Withdraws(w, c, k, asSource, ok, w', r) && c in w.clients && w.clients[c].registered
    ensures Ready(w', c, k)
  {
    assert Key(0);
    WithdrawEmpties(w, c, k, asSource, ok);
  }

  /** The three outcomes of a slot's calls in one value, from the outcomes of the calls. */
  function Outcomes(oks: seq<bool>, revoked: bool, declined: bool): Outcome {
    if |oks| == 3 then Outcome(oks[0], oks[1], oks[2], revoked, declined)
        else Outcome(false, false, false, revoked, declined)
  }

  /** The calls one after the other, as they are made. */
  lemma SlotSteps(w: World, c: Client, k: nat, oks: seq<bool>, ok2: bool, ok3: bool, pow10: real -> real,
                  w1: World, r1: int, w2: World, r2: int, w3: World, r3: int)
    requires c in w.clients && w.clients[c].registered
    requires Quits(w, c, k, oks, pow10, w1, r1)
    requires if r1 != -1 then w3 == w1 else
               && Withdraws(w1, c, k, true, ok2, w2, r2)
               && if r2 != -1 then w3 == w2 else Withdraws(w2, c, k, false, ok3, w3, r3)
    ensures ClearsSlot(w, c, k, Outcomes(oks, ok2, ok3), pow10, w3)
  {
    assert Key(0);
    QuitsReady(w, c, k, oks, pow10, w1, r1);
    assert |oks| == 3 ==> oks == [oks[0], oks[1], oks[2]];
  }

  lemma ClearAllMore(w: World, c: Client, outs: seq<Outcome>, pow10: real -> real, o: Outcome)
    requires Good(w) && c in w.clients && w.clients[c].registered && |outs| < CAP && IsPower(pow10)
    requires Ready(ClearAll(w, c, outs, pow10), c, |outs|)
    ensures ClearAll(w, c, outs + [o], pow10) == ClearSlot(ClearAll(w, c, outs, pow10), c, |outs|, o, pow10)
  {
    assert (outs + [o])[..|outs|] == outs;
  }

  lemma ClearsMore(w: World, c: Client, outs: seq<Outcome>, pow10: real -> real, v: World, o: Outcome, w': World)
    requires ClearsAll(w, c, outs, pow10, v) && ClearsSlot(v, c, |outs|, o, pow10, w') && |outs| < CAP
    ensures ClearsAll(w, c, outs + [o], pow10, w')
  {
    assert Key(0);
    ClearAllMore(w, c, outs, pow10, o);
  }

  lemma ClearsStart(w: World, c: Client, pow10: real -> real)
    requires Good(w) && c in w.clients && w.clients[c].registered && IsPower(pow10)
    ensures ClearsAll(w, c, [], pow10, w)
  {
  }

  /** LogOut as a relation, kept folded. */
  ghost predicate LogsOut(w: World, c: Client, outs: seq<Outcome>, pow10: real -> real, w': World) {
    forall key {:trigger Key(key)} :: Key(key) ==>
      && Good(w) && c in w.clients && w.clients[c].registered && |outs| == CAP && IsPower(pow10)
      && w' == LogOut(w, c, outs, pow10)
  }

  /** After the loop the table is empty, and the client still logged in. */
  lemma ClearsEnd(w: World, c: Client, outs: seq<Outcome>, pow10: real -> real, v: World)
    requires ClearsAll(w, c, outs, pow10, v) && |outs| == CAP
    ensures c in w.clients && c in v.clients && v.clients[c].registered && v.clients[c].player == w.clients[c].player
    ensures Occupied(v.clients[c].slots, null) == 0
    ensures LogsOut(w, c, outs, pow10, Leave(v, c))
  {
    assert Key(0);
    OccupiedNone(v.clients[c].slots, null);
  }

  /**
   What a logout leaves, however its transmissions went: the client's table is empty and no
   invitation names it; all others are untouched; and a client then unregistered is freed.
   */
  lemma LogOutBreaksCycle(w: World, c: Client, outs: seq<Outcome>, pow10: real -> real)
    requires Good(w) && c in w.clients && w.clients[c].registered && |outs| == CAP && IsPower(pow10)
    ensures var w' := LogOut(w, c, outs, pow10);
            && Good(w') && c in w'.clients && w'.clients[c].player == null
            && (forall k :: 0 <= k < |w'.clients[c].slots| ==> w'.clients[c].slots[k] == null)
            && (forall i :: i in w'.invs <==> i in w.invs && i.src != c && i.target != c)
            && (forall i :: i in w'.invs ==> w'.invs[i] == w.invs[i])
            && c !in Disconnect(w', c).clients
  {
    var v := ClearAll(w, c, outs, pow10);
    OccupiedNone(v.clients[c].slots, null);
    LeaveInv(v, c);
    forall i | i in w.invs && (i.src == c || i.target == c)
      ensures Involves(w, i, c, CAP)
    {
      assert Key(0);
      assert InvOk(w, i) && Worlds.TableOk(w, c);
    }
  }

  /** Among the results posted by clearing n slots are those of all running games at these slots. */
  lemma {:induction false} AllResultsHas(w: World, c: Client, n: nat, k: nat)
    requires Good(w) && c in w.clients && w.clients[c].registered && n <= |w.clients[c].slots| && k < n
    ensures forall p :: p in Results(w, c, k) ==> p in AllResults(w, c, n)
  {
    if k < n - 1 {
      AllResultsHas(w, c, n - 1, k);
    }
  }

  /** Every running game of the client is over: the opponent is posted as its winner. */
  lemma LogOutPostsDefeats(w: World, c: Client, outs: seq<Outcome>, pow10: real -> real, i: Invitation)
    requires Good(w) && c in w.clients && w.clients[c].registered && |outs| == CAP && IsPower(pow10)
    requires i in w.invs && (i.src == c || i.target == c) && w.invs[i].game.Some?
    ensures exists p :: p in LogOut(w, c, outs, pow10).posts &&
                        p.inv == i && p.result == ResultCode(Opponent(RoleOf(i, c)))
  {
    assert Key(0);
    assert InvOk(w, i) && Worlds.TableOk(w, c);
    var k := SlotIn(w.invs[i], i, c);
    assert Ready(w, c, k) && InGame(w, c, k);
    AllResultsHas(w, c, CAP, k);
    assert Results(w, c, k)[0] in AllResults(w, c, CAP);
  }
}
