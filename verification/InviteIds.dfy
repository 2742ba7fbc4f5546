/**
 The id in the acknowledgement of an invitation (src/server.c:61-68), the only way the inviter learns it:
 when it names the new invitation, and a run in which it names nothing.
 */
module InviteIds {
  import opened Roles
  import opened Sealing
  import opened Slots
  import opened Games
  import opened Elo
  import opened Players
  import opened Lobby
  import opened Operations
  import opened Worlds
  import opened Logout
  import opened Runs

  /** There is room in the table of the client that is invited. */
  ghost predicate Room(w: World, op: Op) {
    && op.Invite? && op.target != null && op.target in w.clients
    && FirstFree(w.clients[op.target].slots) < |w.clients[op.target].slots|
  }

  /** One invitation with a status other than -1. */
  lemma InviteStep(w: World, op: Op, pow10: real -> real, w': World, r: int)
    requires op.Invite? && Good(w) && Takes(w, op, pow10, w', r) && r != -1
    ensures 0 <= r < CAP && op.c in w.clients && |w.clients[op.c].slots| == CAP && w.clients[op.c].slots[r] == null
    ensures Room(w, op) <==> op.inv != null && InSlot(w', op.c, r, op.inv)
    ensures Room(w, op) ==> op.c in w'.clients && r < w'.clients[op.c].peak
    ensures !Room(w, op) ==> w' == w
  {
    assert Key(0);
    assert Worlds.TableOk(w, op.c) && Worlds.TableOk(w, op.target);
    OccupiedPrefix(w.clients[op.c].slots, null, FirstFree(w.clients[op.c].slots));
    if !Room(w, op) && op.inv != null {
      assert w.clients[op.c].slots[r] == null;
    }
  }

  /**
   The number an inviter is given names the new invitation in its own table, now and for as long as the
   invitation lives, and is below the peak, exactly when the invitee's table had room; otherwise nothing
   has happened and the slot of that number is empty.
   */
  lemma InvitedIdNamesInvitation(ws: seq<World>, ops: seq<Op>, rs: seq<int>, pow10: real -> real, j: nat, k: nat)
    requires IsRun(ws, ops, rs, pow10) && IsPower(pow10) && j < k < |ws| && ops[j].Invite? && rs[j] != -1
    ensures rs[j] >= 0 && ops[j].c in ws[j + 1].clients
    ensures Room(ws[j], ops[j]) <==> ops[j].inv != null && InSlot(ws[j + 1], ops[j].c, rs[j], ops[j].inv)
    ensures Room(ws[j], ops[j]) ==> rs[j] < ws[j + 1].clients[ops[j].c].peak
    ensures Room(ws[j], ops[j]) && ops[j].inv in ws[k].invs ==> InSlot(ws[k], ops[j].c, rs[j], ops[j].inv)
    ensures !Room(ws[j], ops[j]) ==> ws[j + 1] == ws[j] && InSlotNothing(ws[j + 1], ops[j].c, rs[j])
  {
    RunGood(ws, ops, rs, pow10, j);
    InviteStep(ws[j], ops[j], pow10, ws[j + 1], rs[j]);
    if Room(ws[j], ops[j]) && ops[j].inv in ws[k].invs {
      IdsStay(ws, ops, rs, pow10, j + 1, k, ops[j].c, rs[j], ops[j].inv);
    }
  }

  predicate InSlotNothing(w: World, c: Client, n: int) {
    c in w.clients && 0 <= n < |w.clients[c].slots| && w.clients[c].slots[n] == null
  }

  /**
   The acknowledgement that is sent for it carries the number's low eight bits: the number itself if the
   peak is at most 256 and the invitee's table had room.
   */
  lemma AcknowledgedIdFits(ws: seq<World>, ops: seq<Op>, rs: seq<int>, pow10: real -> real, j: nat)
    requires IsRun(ws, ops, rs, pow10) && IsPower(pow10) && j + 1 < |ops| && ops[j].Invite? && rs[j] != -1
    requires ops[j + 1].Reply? && ops[j + 1].kind == AckPkt && ops[j + 1].number == rs[j] && ops[j + 1].c == ops[j].c
    ensures |ws[j + 2].log| == |ws[j + 1].log| + 1
    ensures var p := ws[j + 2].log[|ws[j + 1].log|].packet;
            && p.fd == ops[j].c.fd && p.kind == AckPkt
            && (p.id == rs[j] <==> rs[j] < 256)
            && (Room(ws[j], ops[j]) && ws[j + 1].clients[ops[j].c].peak <= 256 ==> p.id == rs[j])
  {
    InvitedIdNamesInvitation(ws, ops, rs, pow10, j, j + 1);
    assert Takes(ws[j + 1], ops[j + 1], pow10, ws[j + 2], rs[j + 1]);
  }

  /**
   The other odd status (src/client.c:337-339): an inviter is told of a failure although the invitation
   stands exactly when one was made and its packet was lost.
   */
  lemma RefusedYetMade(ws: seq<World>, ops: seq<Op>, rs: seq<int>, pow10: real -> real, j: nat)
    requires IsRun(ws, ops, rs, pow10) && IsPower(pow10) && j < |ops| && ops[j].Invite?
    ensures ops[j].c in ws[j].clients
    ensures (rs[j] == -1 && ops[j].inv != null && ops[j].inv in ws[j + 1].invs) <==>
              && ops[j].target != null && ops[j].target in ws[j].clients && !ops[j].ok
              && Makes(ws[j], ops[j].c, ops[j].target, Opponent(TargetRole(ops[j].role)), TargetRole(ops[j].role))
  {
    RunGood(ws, ops, rs, pow10, j);
    assert Takes(ws[j], ops[j], pow10, ws[j + 1], rs[j]);
    assert Key(0);
  }

  // ---------------------------------------------------------------- a number that names nothing

  /** Three clients and who they log in as: one that invites too late, the invitee, and one that fills its table. */
  datatype Cast = Cast(late: Client, invitee: Client, busy: Client, p: Player, q: Player, s: Player,
      invs: seq<Invitation>) {
    ghost predicate Fit() {
      && late != invitee && late != busy && invitee != busy
      && p.id == 0 && q.id == 1 && s.id == 2 && Sendable(p.name) && Sendable(q.name) && Sendable(s.name)
      && p.name != q.name && p.name != s.name && q.name != s.name
      && |invs| == CAP
      && (forall k :: 0 <= k < CAP ==> Between(invs[k], busy, invitee, First))
      && (forall j, k :: 0 <= j < k < CAP ==> invs[j] != invs[k])
    }
  }

  /** The first n entries are taken, the others free. */
  predicate FilledTo(slots: seq<Invitation?>, n: nat) {
    |slots| == CAP && n <= CAP && forall k :: 0 <= k < CAP ==> (slots[k] != null <==> k < n)
  }

  /** All three are logged in, and the busy one has invited the invitee n times. */
  ghost predicate Staged(w: World, x: Cast, n: nat) {
    && x.Fit() && n <= CAP
    && x.late in w.clients && x.invitee in w.clients && x.busy in w.clients
    && w.clients[x.late].registered && w.clients[x.invitee].registered && w.clients[x.busy].registered
    && w.clients[x.late].player == x.p && w.clients[x.invitee].player == x.q && w.clients[x.busy].player == x.s
    && FilledTo(w.clients[x.late].slots, 0) && FilledTo(w.clients[x.invitee].slots, n)
         && FilledTo(w.clients[x.busy].slots, n)
    && (forall i :: i in w.invs ==> i in x.invs[..n])
    && (forall k :: 0 <= k < |w.log| && w.log[k].about.Some? ==> w.log[k].about.value.inv in x.invs[..n])
    && w.posts == []
  }

  lemma FilledFree(slots: seq<Invitation?>, n: nat)
    requires FilledTo(slots, n)
    ensures FirstFree(slots) == n
  {
    if n < CAP {
      FirstFreeIs(slots, n);
    }
  }

  /** The busy one invites once more. */
  lemma InviteAgain(w: World, x: Cast, n: nat, pow10: real -> real) returns (w': World, r: int)
    requires Good(w) && Staged(w, x, n) && n < CAP
    ensures Takes(w, Invite(x.busy, x.q.name, First, x.invitee, x.invs[n], true), pow10, w', r)
    ensures Staged(w', x, n + 1)
  {
    var i := x.invs[n];
    assert Between(i, x.busy, x.invitee, First);
    assert i !in x.invs[..n];
    FilledFree(w.clients[x.busy].slots, n);
    FilledFree(w.clients[x.invitee].slots, n);
    assert Addressee(w, x.q.name, x.invitee);
    var (w1, r1) := Make(w, x.busy, x.invitee, Second, First, i, true);
    w', r := w1, r1;
    assert x.invs[..n + 1] == x.invs[..n] + [i];
  }

  lemma {:induction false} Fill(t: Trace, x: Cast, n: nat, pow10: real -> real) returns (t': Trace, w: World)
    requires IsPower(pow10) && t.Run(pow10) && n <= CAP
    requires |t.ws| > 0 && Staged(t.ws[|t.ws| - 1], x, 0)
    ensures t'.Run(pow10) && t'.EndsIn(w) && Staged(w, x, n)
  {
    if n == 0 {
      t', w := t, t.ws[|t.ws| - 1];
    } else {
      var v;
      t', v := Fill(t, x, n - 1, pow10);
      assert Good(v) by {
        assert Key(0);
        RunGood(t'.ws, t'.ops, t'.rs, pow10, |t'.ws| - 1);
      }
      var r;
      w, r := InviteAgain(v, x, n - 1, pow10);
      var op := Invite(x.busy, x.q.name, First, x.invitee, x.invs[n - 1], true);
      RunThen(t', pow10, v, op, w, r);
      t' := t'.Then(op, w, r);
    }
  }

  /** One client connects and logs in as a new player. */
  lemma Arrive(t: Trace, w: World, c: Client, p: Player, pow10: real -> real) returns (t': Trace, w': World)
    requires t.Run(pow10) && t.EndsIn(w)
    requires c !in w.clients && p.id == |w.players| && Sendable(p.name)
      && (forall q :: q in w.players ==> q.name != p.name)
    requires forall d :: d in w.clients ==> w.clients[d].player != p
    ensures t'.Run(pow10) && t'.EndsIn(w')
    ensures w' == w.(clients := w.clients[c := NewClient().(player := p)], players := w.players + [p],
      ratings := w.ratings + [INITIAL_RATING])
  {
    var w1 := w.(clients := w.clients[c := NewClient()]);
    RunThen(t, pow10, w, Connect(c), w1, 0);
    var t1 := t.Then(Connect(c), w1, 0);
    var w2 := Enroll(w1, p);
    RunThen(t1, pow10, w1, Register(p), w2, 0);
    var t2 := t1.Then(Register(p), w2, 0);
    w' := Login(w2, c, p).0;
    RunThen(t2, pow10, w2, LogIn(c, p), w', 0);
    t' := t2.Then(LogIn(c, p), w', 0);
  }

  lemma SetTheStage(x: Cast, pow10: real -> real) returns (t: Trace)
    requires x.Fit() && IsPower(pow10)
    ensures t.Run(pow10) && |t.ws| > 0 && Staged(t.ws[|t.ws| - 1], x, 0)
  {
    NewRun(pow10);
    var w;
    t, w := Arrive(NewTrace(), EmptyWorld(), x.late, x.p, pow10);
    t, w := Arrive(t, w, x.invitee, x.q, pow10);
    t, w := Arrive(t, w, x.busy, x.s, pow10);
  }

  /**
   A run in which a number is given for nothing: the invitee's table is full, the inviter's is not, the
   status is 0 and not -1, nothing has happened, and the inviter's slot 0 is empty.
   */
  lemma NumberForNothing(x: Cast, pow10: real -> real) returns (t: Trace, n: nat)
    requires x.Fit() && IsPower(pow10)
    ensures IsRun(t.ws, t.ops, t.rs, pow10) && |t.ops| == n + 1
    ensures t.ops[n] == Invite(x.late, x.q.name, First, x.invitee, null, false) && t.rs[n] == 0
    ensures t.ws[n + 1] == t.ws[n] && InSlotNothing(t.ws[n + 1], x.late, t.rs[n]) && !Room(t.ws[n], t.ops[n])
  {
    t := SetTheStage(x, pow10);
    var w;
    t, w := Fill(t, x, CAP, pow10);
    assert Good(w) by {
      assert Key(0);
      RunGood(t.ws, t.ops, t.rs, pow10, |t.ws| - 1);
    }
    var op := Invite(x.late, x.q.name, First, x.invitee, null, false);
    FilledFree(w.clients[x.late].slots, 0);
    FilledFree(w.clients[x.invitee].slots, CAP);
    assert Addressee(w, x.q.name, x.invitee);
    assert Takes(w, op, pow10, w, 0);
    RunThen(t, pow10, w, op, w, 0);
    n := |t.ops|;
    assert |t.ws| == n + 1 && |t.rs| == n by {
      assert Key(0);
    }
    t := t.Then(op, w, 0);
    assert Key(0);
  }
}
