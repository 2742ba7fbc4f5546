/**
 Whether the party a notification is about is still connected when it is sent.  creg_unregister closes the
 descriptor (src/client_registry.c:90-91); a client that an invitation still holds stays allocated, and
 what is sent to it goes to a descriptor that may be somebody else's by then.
 */
module Delivery {
  import opened Roles
  import opened Sealing
  import opened Slots
  import opened Games
  import opened Elo
  import opened Players
  import opened Lobby
  import opened Operations
  import opened Worlds
  import opened Logout
  import opened Runs
  import opened InviteIds

  predicate Connected(w: World, c: Client) {
    c in w.clients && w.clients[c].registered
  }

  /** The notifications an operation on w sends say truly who was connected. */
  ghost predicate Told(w: World, w': World) {
    && |w.log| <= |w'.log|
    && forall k :: |w.log| <= k < |w'.log| && w'.log[k].about.Some? ==>
         && w'.log[k].about.value.to in w.clients
         && (w'.log[k].about.value.connected <==> Connected(w, w'.log[k].about.value.to))
  }

  lemma LogOutTold(w: World, c: Client, outs: seq<Outcome>, pow10: real -> real, w': World)
    requires LogsOut(w, c, outs, pow10, w')
    ensures Told(w, w')
  {
    assert Key(0);
  }

  lemma WithdrawTold(w: World, c: Client, id: nat, asSource: bool, ok: bool, w': World, r: int)
    requires Ready(w, c, id) && Withdraws(w, c, id, asSource, ok, w', r)
    ensures Told(w, w')
  {
    if w.clients[c].slots[id] != null {
      EntryOk(w, c, id);
    }
    assert Key(0);
  }

  lemma AcceptTold(w: World, c: Client, id: nat, ok: bool, w': World, r: int, told: Option<Payload>)
    requires Ready(w, c, id) && Accepts(w, c, id, ok, w', r, told)
    ensures Told(w, w')
  {
    if w.clients[c].slots[id] != null {
      EntryOk(w, c, id);
    }
    assert Key(0);
  }

  lemma QuitTold(w: World, c: Client, id: nat, oks: seq<bool>, pow10: real -> real, w': World, r: int)
    requires Ready(w, c, id) && Quits(w, c, id, oks, pow10, w', r)
    ensures Told(w, w')
  {
    if w.clients[c].slots[id] != null {
      EntryOk(w, c, id);
    }
    assert Key(0);
  }

  lemma MoveTold(w: World, c: Client, id: nat, move: string, oks: seq<bool>, pow10: real -> real, w': World, r: int)
    requires Ready(w, c, id) && Advances(w, c, id, move, oks, pow10, w', r)
    ensures Told(w, w')
  {
    if w.clients[c].slots[id] != null {
      EntryOk(w, c, id);
    }
    assert Key(0);
  }

  lemma StepTold(w: World, op: Op, pow10: real -> real, w': World, r: int)
    requires Good(w) && IsPower(pow10) && Takes(w, op, pow10, w', r)
    ensures Told(w, w')
  {
    match op
    case Connect(_) =>
    case Unregister(_) =>
    case Register(_) =>
    case LogIn(_, _) =>
    case Reply(_, _, _, _, _) =>
    case Invite(_, _, _, _, _, _) =>
      assert Key(0);
    case LogOutOp(c, outs) => LogOutTold(w, c, outs, pow10, w');
    case Revoke(c, id, ok) => WithdrawTold(w, c, id, true, ok, w', r);
    case Decline(c, id, ok) => WithdrawTold(w, c, id, false, ok, w', r);
    case AcceptOp(c, id, ok, told) => AcceptTold(w, c, id, ok, w', r, told);
    case ResignOp(c, id, oks) => QuitTold(w, c, id, oks, pow10, w', r);
    case MoveOp(c, id, move, oks) => MoveTold(w, c, id, move, oks, pow10, w', r);
  }

  /** Only a new connection adds a client, and only an unregistration disconnects one. */
  lemma StepConnects(w: World, op: Op, pow10: real -> real, w': World, r: int, c: Client)
    requires Good(w) && IsPower(pow10) && Takes(w, op, pow10, w', r) && c in w'.clients
    ensures c !in w.clients ==> op == Connect(c) && Connected(w', c)
    ensures c in w.clients ==> (Connected(w', c) <==> Connected(w, c) && op != Unregister(c))
  {
    if c in w.clients && Connected(w, c) && op != Unregister(c) {
      if !Concerns(op, c) {
        StepOthers(w, op, pow10, w', r, c);
      } else {
        StaysConnected(w, op, pow10, w', r, c);
      }
    } else {
      NobodyConnects(w, op, pow10, w', r, c);
    }
  }

  lemma StaysConnected(w: World, op: Op, pow10: real -> real, w': World, r: int, c: Client)
    requires Good(w) && IsPower(pow10) && Takes(w, op, pow10, w', r)
    requires Connected(w, c) && Concerns(op, c) && op != Unregister(c)
    ensures Connected(w', c)
  {
    assert Key(0);
  }

  /** Nobody else is connected by an operation. */
  lemma NobodyConnects(w: World, op: Op, pow10: real -> real, w': World, r: int, c: Client)
    requires Good(w) && IsPower(pow10) && Takes(w, op, pow10, w', r) && c in w'.clients
    requires c !in w.clients || !Connected(w, c) || op == Unregister(c)
    ensures c !in w.clients ==> op == Connect(c) && Connected(w', c)
    ensures c in w.clients ==> !Connected(w', c)
  {
    match op
    case Connect(_) =>
    case Unregister(_) =>
    case Register(_) =>
    case LogIn(_, _) =>
    case Reply(_, _, _, _, _) =>
    case Invite(_, _, _, _, _, _) =>
      assert Key(0);
    case LogOutOp(_, _) =>
      assert Key(0);
    case _ => EntryConnects(w, op, pow10, w', r, c);
  }

  lemma EntryConnects(w: World, op: Op, pow10: real -> real, w': World, r: int, c: Client)
    requires op.Revoke? || op.Decline? || op.AcceptOp? || op.ResignOp? || op.MoveOp?
    requires Good(w) && IsPower(pow10) && Takes(w, op, pow10, w', r) && c in w'.clients
    ensures c in w.clients && w'.clients[c].registered == w.clients[c].registered
  {
    assert Key(0);
    if w.clients[op.c].slots[op.id] != null {
      EntryOk(w, op.c, op.id);
      DetachKeepsClient(w, w.clients[op.c].slots[op.id], op.c);
    }
  }

  /** The connection of c ended before state j, and c has been kept for an invitation since. */
  ghost predicate LeftEarlier(ws: seq<World>, ops: seq<Op>, j: nat, c: Client, m: nat)
    requires |ws| == |ops| + 1 && j < |ws|
  {
    m < j && ops[m] == Unregister(c) && forall x :: m < x <= j ==> c in ws[x].clients
  }

  /** A client that is allocated but not connected was unregistered while an invitation held it: it was logged in. */
  lemma {:induction false} NotConnected(ws: seq<World>, ops: seq<Op>, rs: seq<int>, pow10: real -> real, j: nat,
                                        c: Client) returns (m: nat)
    requires IsRun(ws, ops, rs, pow10) && IsPower(pow10) && j < |ws| && c in ws[j].clients && !Connected(ws[j], c)
    ensures LeftEarlier(ws, ops, j, c, m) && Connected(ws[m], c) && ws[m].clients[c].player != null
  {
    RunGood(ws, ops, rs, pow10, j - 1);
    StepConnects(ws[j - 1], ops[j - 1], pow10, ws[j], rs[j - 1], c);
    if Connected(ws[j - 1], c) {
      m := j - 1;
      KeptIsLoggedIn(ws[m], c);
    } else {
      m := NotConnected(ws, ops, rs, pow10, j - 1, c);
    }
  }

  /** A client that survives its unregistration is logged in. */
  lemma KeptIsLoggedIn(w: World, c: Client)
    requires Good(w) && Connected(w, c) && c in Disconnect(w, c).clients
    ensures w.clients[c].player != null
  {
    assert Key(0);
    assert Worlds.TableOk(w, c);
    var slots := w.clients[c].slots;
    OccupiedBounds(slots, null);
    var k :| 0 <= k < CAP && slots[k] != null;
    assert SlotOk(w, c, k) && InvOk(w, slots[k]);
  }

  lemma {:induction false} LeftIsNotConnected(ws: seq<World>, ops: seq<Op>, rs: seq<int>, pow10: real -> real, j: nat,
                                              c: Client, m: nat)
    requires IsRun(ws, ops, rs, pow10) && IsPower(pow10) && j < |ws| && LeftEarlier(ws, ops, j, c, m)
    ensures !Connected(ws[j], c)
  {
    RunGood(ws, ops, rs, pow10, j - 1);
    StepConnects(ws[j - 1], ops[j - 1], pow10, ws[j], rs[j - 1], c);
    if m < j - 1 {
      LeftIsNotConnected(ws, ops, rs, pow10, j - 1, c, m);
    }
  }

  /** The operation that sent a packet of the history. */
  lemma {:induction false} SentBy(ws: seq<World>, ops: seq<Op>, rs: seq<int>, pow10: real -> real, k: nat, n: nat)
    returns (j: nat)
    requires IsRun(ws, ops, rs, pow10) && IsPower(pow10) && k < |ws| && n < |ws[k].log|
    ensures j < k && |ws[j].log| <= n < |ws[j + 1].log| && ws[j + 1].log[n] == ws[k].log[n]
  {
    RunGood(ws, ops, rs, pow10, k - 1);
    StepOnward(ws[k - 1], ops[k - 1], pow10, ws[k], rs[k - 1]);
    if n < |ws[k - 1].log| {
      j := SentBy(ws, ops, rs, pow10, k - 1, n);
    } else {
      j := k - 1;
    }
  }

  /**
   Every notification of every run, sent by operation j: its party was not connected any more exactly when
   its connection had ended before and an invitation has kept it since; and then it was logged in when its
   connection ended, which is what a lost login acknowledgement leads to.
   */
  lemma DeliveredUnlessLeft(ws: seq<World>, ops: seq<Op>, rs: seq<int>, pow10: real -> real, k: nat, n: nat)
    returns (j: nat)
    requires IsRun(ws, ops, rs, pow10) && IsPower(pow10) && k < |ws| && n < |ws[k].log| && ws[k].log[n].about.Some?
    ensures j < k && |ws[j].log| <= n < |ws[j + 1].log|
    ensures var a := ws[k].log[n].about.value;
            && a.to in ws[j].clients
            && (a.connected <==> Connected(ws[j], a.to))
            && (!a.connected <==> exists m: nat :: LeftEarlier(ws, ops, j, a.to, m))
            && (forall m: nat :: LeftEarlier(ws, ops, j, a.to, m) ==>
                 a.to in ws[m].clients && ws[m].clients[a.to].player != null)
  {
    j := SentBy(ws, ops, rs, pow10, k, n);
    RunGood(ws, ops, rs, pow10, j);
    StepTold(ws[j], ops[j], pow10, ws[j + 1], rs[j]);
    var a := ws[k].log[n].about.value;
    if !a.connected {
      var m := NotConnected(ws, ops, rs, pow10, j, a.to);
    }
    forall m: nat | LeftEarlier(ws, ops, j, a.to, m)
      ensures !a.connected && a.to in ws[m].clients && ws[m].clients[a.to].player != null
    {
      LeftIsNotConnected(ws, ops, rs, pow10, j, a.to, m);
      RunGood(ws, ops, rs, pow10, m);
      assert Takes(ws[m], ops[m], pow10, ws[m + 1], rs[m]);
      KeptIsLoggedIn(ws[m], a.to);
    }
  }

  /** In a run in which nobody's connection ends while logged in, every notification went to a connected party. */
  lemma AllDelivered(ws: seq<World>, ops: seq<Op>, rs: seq<int>, pow10: real -> real, k: nat, n: nat)
    requires IsRun(ws, ops, rs, pow10) && IsPower(pow10) && k < |ws| && n < |ws[k].log| && ws[k].log[n].about.Some?
    requires forall m :: 0 <= m < |ops| && ops[m].Unregister? && ops[m].c in ws[m].clients ==>
      ws[m].clients[ops[m].c].player == null
    ensures ws[k].log[n].about.value.connected
  {
    var j := DeliveredUnlessLeft(ws, ops, rs, pow10, k, n);
    var a := ws[k].log[n].about.value;
    if !a.connected {
      var m := NotConnected(ws, ops, rs, pow10, j, a.to);
      assert false;
    }
  }

  // ---------------------------------------------------------------- a notification to nobody

  /** Two clients, who they log in as, and the invitation of one to the other. */
  datatype Pair = Pair(from: Client, gone: Client, p: Player, q: Player, i: Invitation) {
    ghost predicate Fit() {
      && from != gone && p.id == 0 && q.id == 1 && p.name != q.name && Sendable(p.name) && Sendable(q.name)
      && Between(i, from, gone, First)
    }
  }

  /** Both have logged in, and one has invited the other. */
  lemma Invited(x: Pair, pow10: real -> real) returns (t: Trace, w: World)
    requires x.Fit() && IsPower(pow10)
    ensures t.Run(pow10) && t.EndsIn(w) && Good(w)
    ensures x.from in w.clients && x.gone in w.clients && w.clients[x.from].registered && w.clients[x.gone].registered
    ensures w.clients[x.gone].player == x.q && x.i in w.invs && w.invs[x.i] == InvV(0, 0, None)
    ensures InSlot(w, x.from, 0, x.i)
  {
    NewRun(pow10);
    var v;
    t, v := Arrive(NewTrace(), EmptyWorld(), x.from, x.p, pow10);
    t, v := Arrive(t, v, x.gone, x.q, pow10);
    var op := Invite(x.from, x.q.name, First, x.gone, x.i, true);
    FirstFreeIs(v.clients[x.from].slots, 0);
    FirstFreeIs(v.clients[x.gone].slots, 0);
    EndsGood(t, v, pow10);
    assert Addressee(v, x.q.name, x.gone);
    var (w1, r) := Make(v, x.from, x.gone, Second, First, x.i, true);
    w := w1;
    RunThen(t, pow10, v, op, w, r);
    t := t.Then(op, w, r);
    EndsGood(t, w, pow10);
  }

  lemma EndsGood(t: Trace, w: World, pow10: real -> real)
    requires t.Run(pow10) && t.EndsIn(w) && IsPower(pow10)
    ensures Good(w) && |t.ws| == |t.ops| + 1 && |t.rs| == |t.ops|
  {
    assert Key(0);
    RunGood(t.ws, t.ops, t.rs, pow10, |t.ws| - 1);
  }

  /** The inviter withdraws; the invitee is told, connected or not. */
  lemma WithdrawnFrom(w: World, x: Pair) returns (w': World)
    requires Good(w) && x.i in w.invs && w.invs[x.i] == InvV(0, 0, None) && x.i.src == x.from && x.i.target == x.gone
    requires InSlot(w, x.from, 0, x.i) && x.gone in w.clients
    ensures Withdraws(w, x.from, 0, true, true, w', 0) && |w'.log| == |w.log| + 1
    ensures var s := w'.log[|w.log|];
            && s.packet == Packet(x.gone.fd, RevokedPkt, 0, NullRole, Nothing, true)
            && s.about.Some? && s.about.value.to == x.gone && s.about.value.connected == w.clients[x.gone].registered
  {
    assert InvOk(w, x.i) by {
      assert Key(0);
    }
    w' := Withdraw(w, x.from, 0, true, true).0;
  }

  /**
   A run in which a notification goes to nobody: a user's connection ends while it is logged in and invited,
   and then the invitation is withdrawn.  The packet is written to the descriptor closed before.
   */
  lemma SentToNobody(x: Pair, pow10: real -> real) returns (t: Trace, n: nat)
    requires x.Fit() && IsPower(pow10)
    ensures IsRun(t.ws, t.ops, t.rs, pow10) && |t.ops| == n + 2
    ensures t.ops[n] == Unregister(x.gone) && t.ops[n + 1] == Revoke(x.from, 0, true)
    ensures |t.ws[n + 2].log| == |t.ws[n + 1].log| + 1
    ensures var s := t.ws[n + 2].log[|t.ws[n + 1].log|];
            && s.packet == Packet(x.gone.fd, RevokedPkt, 0, NullRole, Nothing, true)
            && s.about.Some? && s.about.value.to == x.gone && !s.about.value.connected
  {
    var w;
    t, w := Invited(x, pow10);
    EndsGood(t, w, pow10);
    n := |t.ops|;
    var w1 := Disconnect(w, x.gone);
    RunThen(t, pow10, w, Unregister(x.gone), w1, 0);
    t := t.Then(Unregister(x.gone), w1, 0);
    EndsGood(t, w1, pow10);
    assert InvOk(w1, x.i) by {
      assert Key(0);
    }
    var w2 := WithdrawnFrom(w1, x);
    RunThen(t, pow10, w1, Revoke(x.from, 0, true), w2, 0);
    t := t.Then(Revoke(x.from, 0, true), w2, 0);
    assert Key(0);
  }
}
