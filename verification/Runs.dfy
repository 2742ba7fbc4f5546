/** Sequences of operations: what holds in every state a server can reach, and along the way. */
module Runs {
  import opened Roles
  import opened Sealing
  import opened Slots
  import opened TicTacToe
  import opened Games
  import opened Elo
  import opened Players
  import opened Lobby
  import opened Operations
  import opened Worlds
  import opened WorldKept
  import opened Logout

  /** One operation, with the objects it allocates and the outcomes of its transmissions. */
  datatype Op =
    | Connect(c: Client)
    | Unregister(c: Client)
    | Register(p: Player)
    | LogIn(c: Client, p: Player)
    | Invite(c: Client, name: string, role: Role, target: Client?, inv: Invitation?, ok: bool)
    | Revoke(c: Client, id: nat, ok: bool)
    | Decline(c: Client, id: nat, ok: bool)
    | AcceptOp(c: Client, id: nat, ok: bool, told: Option<Payload>)
    | ResignOp(c: Client, id: nat, oks: seq<bool>)
    | MoveOp(c: Client, id: nat, move: string, oks: seq<bool>)
    | LogOutOp(c: Client, outs: seq<Outcome>)
    | Reply(c: Client, kind: Kind, number: int, payload: Payload, ok: bool)

  /** Some packet in the history was about the invitation. */
  ghost predicate LoggedFor(w: World, i: Invitation) {
    exists k :: 0 <= k < |w.log| && w.log[k].about.Some? && w.log[k].about.value.inv == i
  }

  /** The object was never seen before: what `new` gives. */
  ghost predicate Unused(w: World, i: Invitation) {
    i !in w.invs && !LoggedFor(w, i) && forall k :: 0 <= k < |w.posts| ==> w.posts[k].inv != i
  }

  /** The operation can be called in w, and takes it to w' with status r. */
  ghost predicate Takes(w: World, op: Op, pow10: real -> real, w': World, r: int) {
    match op
    case Connect(c) => c !in w.clients && w' == w.(clients := w.clients[c := NewClient()])
    case Unregister(c) => c in w.clients && w.clients[c].registered && w' == Disconnect(w, c)
    case Register(p) =>
      && p.id == |w.players| && Sendable(p.name) && (forall q :: q in w.players ==> q.name != p.name)
      && w' == Enroll(w, p)
    case LogIn(c, p) => c in w.clients && w.clients[c].registered && p in w.players && (w', r) == Login(w, c, p)
    case Invite(c, name, role, target, inv, ok) =>
      && c in w.clients && w.clients[c].registered
      && (inv != null ==> Unused(w, inv) && target != null && Between(inv, c, target, role))
      && Invites(w, c, name, role, target, inv, ok, w', r)
    case Revoke(c, id, ok) => Ready(w, c, id) && Withdraws(w, c, id, true, ok, w', r)
    case Decline(c, id, ok) => Ready(w, c, id) && Withdraws(w, c, id, false, ok, w', r)
    case AcceptOp(c, id, ok, told) => Ready(w, c, id) && Accepts(w, c, id, ok, w', r, told)
    case ResignOp(c, id, oks) => Ready(w, c, id) && Quits(w, c, id, oks, pow10, w', r)
    case MoveOp(c, id, move, oks) => Ready(w, c, id) && Advances(w, c, id, move, oks, pow10, w', r)
    case LogOutOp(c, outs) => c in w.clients && w.clients[c].player != null && LogsOut(w, c, outs, pow10, w')
    case Reply(c, kind, id, payload, ok) =>
      && c in w.clients && (kind == AckPkt || kind == NackPkt)
      && w' == w.(log := w.log + [Sent(Packet(c.fd, kind, id % 256, NullRole, Carried(payload), ok), None)])
  }

  // ---------------------------------------------------------------- one step

  lemma InviteGood(w: World, op: Op, pow10: real -> real, w': World, r: int)
    requires op.Invite? && Good(w) && Takes(w, op, pow10, w', r)
    ensures Good(w')
  {
    assert Key(0);
    if op.target != null && op.inv != null {
      if op.c != op.target {
        MakeInv(w, op.c, op.target, op.inv.srcRole, op.inv.targetRole, op.inv, op.ok);
      }
    }
  }

  /** Every operation keeps every state good, whatever the transmissions do. */
  lemma StepGood(w: World, op: Op, pow10: real -> real, w': World, r: int)
    requires Good(w) && IsPower(pow10) && Takes(w, op, pow10, w', r)
    ensures Good(w')
  {
    match op
    case Connect(c) => ConnectInv(w, c);
    case Unregister(c) => DisconnectInv(w, c);
    case Register(p) => EnrollInv(w, p);
    case LogIn(c, p) => LoginInv(w, c, p);
    case Invite(_, _, _, _, _, _) => InviteGood(w, op, pow10, w', r);
    case Revoke(c, id, ok) => WithdrawsReady(w, c, id, true, ok, w', r);
    case Decline(c, id, ok) => WithdrawsReady(w, c, id, false, ok, w', r);
    case AcceptOp(c, id, ok, _) =>
      assert Key(0);
      AcceptInv(w, c, id, ok);
    case ResignOp(c, id, oks) => QuitsReady(w, c, id, oks, pow10, w', r);
    case MoveOp(c, id, move, oks) =>
      assert Key(0);
      AdvanceInv(w, c, id, move, oks, pow10);
    case LogOutOp(c, outs) =>
      assert Key(0);
      LogOutBreaksCycle(w, c, outs, pow10);
    case Reply(_, _, _, _, _) =>
      assert Key(0);
      LogInv(w, [w'.log[|w.log|]]);
  }

  /** The result of a game in an invitation is among the posts. */
  ghost predicate PostedFor(w: World, i: Invitation) {
    exists k :: 0 <= k < |w.posts| && w.posts[k].inv == i
  }

  /** What no operation undoes: slots stay, the histories only grow, and a game that goes has been posted. */
  ghost predicate Onward(w: World, w': World) {
    && (forall i :: i in w.invs && i in w'.invs ==>
         w'.invs[i].srcSlot == w.invs[i].srcSlot && w'.invs[i].targetSlot == w.invs[i].targetSlot)
    && w.log <= w'.log && w.posts <= w'.posts && w.players <= w'.players
    && (forall i :: i in w.invs && w.invs[i].game.Some? ==>
         if i in w'.invs then w'.invs[i].game.Some? else PostedFor(w', i))
    && (forall i :: i in w'.invs && i !in w.invs ==> !LoggedFor(w, i) && LoggedFor(w', i))
  }

  lemma InviteOnward(w: World, op: Op, pow10: real -> real, w': World, r: int)
    requires op.Invite? && Good(w) && Takes(w, op, pow10, w', r)
    ensures Onward(w, w')
  {
    assert Key(0);
    if w' != w {
      assert w'.log[|w.log|].about.value.inv == op.inv;
    }
  }

  lemma WithdrawOnward(w: World, c: Client, id: nat, asSource: bool, ok: bool, w': World, r: int)
    requires Ready(w, c, id) && Withdraws(w, c, id, asSource, ok, w', r)
    ensures Onward(w, w')
  {
    assert Key(0);
  }

  lemma QuitOnward(w: World, c: Client, id: nat, oks: seq<bool>, pow10: real -> real, w': World, r: int)
    requires Ready(w, c, id) && Quits(w, c, id, oks, pow10, w', r)
    ensures Onward(w, w')
  {
    assert Key(0);
    if w' != w {
      assert w'.posts[|w.posts|].inv == w.clients[c].slots[id];
    }
  }

  lemma AdvanceOnward(w: World, c: Client, id: nat, move: string, oks: seq<bool>, pow10: real -> real, w': World,
                      r: int)
    requires Ready(w, c, id) && Advances(w, c, id, move, oks, pow10, w', r)
    ensures Onward(w, w')
  {
    assert Key(0);
    if |w'.posts| > |w.posts| {
      assert w'.posts[|w.posts|].inv == w.clients[c].slots[id];
    }
  }

  lemma LogOutOnward(w: World, c: Client, outs: seq<Outcome>, pow10: real -> real, w': World)
    requires LogsOut(w, c, outs, pow10, w')
    ensures Onward(w, w')
  {
    assert Key(0);
    LogOutBreaksCycle(w, c, outs, pow10);
    forall i | i in w.invs && w.invs[i].game.Some? && i !in w'.invs
      ensures PostedFor(w', i)
    {
      LogOutPostsDefeats(w, c, outs, pow10, i);
      var p :| p in w'.posts && p.inv == i;
    }
  }

  lemma StepOnward(w: World, op: Op, pow10: real -> real, w': World, r: int)
    requires Good(w) && IsPower(pow10) && Takes(w, op, pow10, w', r)
    ensures Onward(w, w')
  {
    match op
    case Connect(_) =>
    case Unregister(_) =>
    case Register(_) =>
    case LogIn(_, _) =>
    case Invite(_, _, _, _, _, _) => InviteOnward(w, op, pow10, w', r);
    case Revoke(c, id, ok) => WithdrawOnward(w, c, id, true, ok, w', r);
    case Decline(c, id, ok) => WithdrawOnward(w, c, id, false, ok, w', r);
    case AcceptOp(c, id, ok, _) =>
      assert Key(0);
    case ResignOp(c, id, oks) => QuitOnward(w, c, id, oks, pow10, w', r);
    case MoveOp(c, id, move, oks) => AdvanceOnward(w, c, id, move, oks, pow10, w', r);
    case LogOutOp(c, outs) => LogOutOnward(w, c, outs, pow10, w');
    case Reply(_, _, _, _, _) =>
  }

  /** Whether the operation connects, disconnects, or logs this client in or out. */
  predicate Concerns(op: Op, d: Client) {
    (op.Connect? || op.Unregister? || op.LogIn? || op.LogOutOp?) && op.c == d
  }

  /** Every other registered client stays registered, and logged in as before. */
  lemma StepOthers(w: World, op: Op, pow10: real -> real, w': World, r: int, d: Client)
    requires Good(w) && IsPower(pow10) && Takes(w, op, pow10, w', r)
    requires d in w.clients && w.clients[d].registered && !Concerns(op, d)
    ensures d in w'.clients && w'.clients[d].registered && w'.clients[d].player == w.clients[d].player
  {
    if op.Revoke? || op.Decline? || op.ResignOp? || op.MoveOp? {
      LeavingOthers(w, op, pow10, w', r, d);
    } else {
      assert Key(0);
      if op.LogOutOp? {
        assert Cleared(w, ClearAll(w, op.c, op.outs, pow10), op.c, CAP);
      }
    }
  }

  /** The same for the operations after which an invitation may be gone. */
  lemma LeavingOthers(w: World, op: Op, pow10: real -> real, w': World, r: int, d: Client)
    requires op.Revoke? || op.Decline? || op.ResignOp? || op.MoveOp?
    requires Good(w) && IsPower(pow10) && Takes(w, op, pow10, w', r)
    requires d in w.clients && w.clients[d].registered
    ensures d in w'.clients && w'.clients[d].registered && w'.clients[d].player == w.clients[d].player
  {
    assert Key(0);
    var i := w.clients[op.c].slots[op.id];
    if i != null && i in w.invs {
      DetachKeepsClient(w, i, d);
    }
  }

  // ---------------------------------------------------------------- runs

  /** Every invitation there is has been announced. */
  ghost predicate Announced(w: World) {
    forall i :: i in w.invs ==> LoggedFor(w, i)
  }

  lemma OnwardLogged(w: World, w': World, i: Invitation)
    requires Onward(w, w')
    ensures LoggedFor(w, i) ==> LoggedFor(w', i)
    ensures PostedFor(w, i) ==> PostedFor(w', i)
  {
    if LoggedFor(w, i) {
      var k :| 0 <= k < |w.log| && w.log[k].about.Some? && w.log[k].about.value.inv == i;
      assert w'.log[k] == w.log[k];
    }
    if PostedFor(w, i) {
      var k :| 0 <= k < |w.posts| && w.posts[k].inv == i;
      assert w'.posts[k] == w.posts[k];
    }
  }

  lemma OnwardAnnounced(w: World, w': World)
    requires Announced(w) && Onward(w, w')
    ensures Announced(w')
  {
    forall i | i in w'.invs
      ensures LoggedFor(w', i)
    {
      OnwardLogged(w, w', i);
    }
  }

  lemma OnwardTransitive(w: World, v: World, w': World)
    requires Announced(w) && Onward(w, v) && Onward(v, w')
    ensures Onward(w, w')
  {
    forall i: Invitation
      ensures LoggedFor(w, i) ==> LoggedFor(v, i)
      ensures PostedFor(v, i) ==> PostedFor(w', i)
      ensures LoggedFor(v, i) ==> LoggedFor(w', i)
    {
      OnwardLogged(w, v, i);
      OnwardLogged(v, w', i);
    }
  }

  /** States ws, from the empty server on, each reached from the one before by the operation between them. */
  ghost predicate IsRun(ws: seq<World>, ops: seq<Op>, rs: seq<int>, pow10: real -> real) {
    && |ws| == |ops| + 1 && |rs| == |ops|
    && ws[0] == EmptyWorld()
    && forall k :: 0 <= k < |ops| ==> Takes(ws[k], ops[k], pow10, ws[k + 1], rs[k])
  }

  /** A run as one value. */
  datatype Trace = Trace(ws: seq<World>, ops: seq<Op>, rs: seq<int>) {
    ghost predicate Run(pow10: real -> real) {
      forall k {:trigger Key(k)} :: Key(k) ==> IsRun(ws, ops, rs, pow10)
    }

    /** One more operation. */
    function Then(op: Op, w: World, r: int): Trace {
      Trace(ws + [w], ops + [op], rs + [r])
    }

    ghost predicate EndsIn(w: World) {
      |ws| > 0 && ws[|ws| - 1] == w
    }
  }

  function NewTrace(): Trace {
    Trace([EmptyWorld()], [], [])
  }

  lemma NewRun(pow10: real -> real)
    ensures NewTrace().Run(pow10) && NewTrace().EndsIn(EmptyWorld())
  {
  }

  lemma RunThen(t: Trace, pow10: real -> real, w: World, op: Op, w': World, r: int)
    requires t.Run(pow10) && t.EndsIn(w) && Takes(w, op, pow10, w', r)
    ensures t.Then(op, w', r).Run(pow10) && t.Then(op, w', r).EndsIn(w')
  {
    assert Key(0);
    var u := t.Then(op, w', r);
    forall k | 0 <= k < |u.ops|
      ensures Takes(u.ws[k], u.ops[k], pow10, u.ws[k + 1], u.rs[k])
    {
      assert k < |t.ops| ==> Takes(t.ws[k], t.ops[k], pow10, t.ws[k + 1], t.rs[k]);
    }
  }

  /** Every reachable state is good. */
  lemma {:induction false} RunGood(ws: seq<World>, ops: seq<Op>, rs: seq<int>, pow10: real -> real, k: nat)
    requires IsRun(ws, ops, rs, pow10) && IsPower(pow10) && k < |ws|
    ensures Good(ws[k]) && Announced(ws[k])
  {
    if k == 0 {
      EmptyInv();
    } else {
      RunGood(ws, ops, rs, pow10, k - 1);
      StepGood(ws[k - 1], ops[k - 1], pow10, ws[k], rs[k - 1]);
      StepOnward(ws[k - 1], ops[k - 1], pow10, ws[k], rs[k - 1]);
      OnwardAnnounced(ws[k - 1], ws[k]);
    }
  }

  lemma {:induction false} RunOnward(ws: seq<World>, ops: seq<Op>, rs: seq<int>, pow10: real -> real, j: nat, k: nat)
    requires IsRun(ws, ops, rs, pow10) && IsPower(pow10) && j <= k < |ws|
    ensures Onward(ws[j], ws[k])
    decreases k
  {
    RunGood(ws, ops, rs, pow10, j);
    if j < k {
      RunOnward(ws, ops, rs, pow10, j, k - 1);
      RunGood(ws, ops, rs, pow10, k - 1);
      StepOnward(ws[k - 1], ops[k - 1], pow10, ws[k], rs[k - 1]);
      OnwardTransitive(ws[j], ws[k - 1], ws[k]);
    }
  }

  // ---------------------------------------------------------------- what every reachable state says

  /**
   A live invitation is in exactly one slot of its source and one of its target, and in no other slot of
   any table; its game, if it has one, is sound and running.  What is in no slot is not live.
   */
  lemma ExactlyTwoSlots(ws: seq<World>, ops: seq<Op>, rs: seq<int>, pow10: real -> real, k: nat, i: Invitation,
                        c: Client, n: nat)
    requires IsRun(ws, ops, rs, pow10) && IsPower(pow10) && k < |ws|
    ensures InSlot(ws[k], c, n, i) <==>
              i in ws[k].invs && ((c == i.src && n == ws[k].invs[i].srcSlot)
                  || (c == i.target && n == ws[k].invs[i].targetSlot))
    ensures i in ws[k].invs ==> i.src != i.target
    ensures i in ws[k].invs && ws[k].invs[i].game.Some? ==>
      Sound(ws[k].invs[i].game.value) && !ws[k].invs[i].game.value.over
  {
    RunGood(ws, ops, rs, pow10, k);
    assert Key(0);
    var w := ws[k];
    if i in w.invs {
      assert InvOk(w, i) && GameOk(w, i);
    }
    if InSlot(w, c, n, i) {
      assert Worlds.TableOk(w, c) && SlotOk(w, c, n);
    }
  }

  /** An id keeps naming the same invitation for as long as the invitation lives. */
  lemma IdsStay(ws: seq<World>, ops: seq<Op>, rs: seq<int>, pow10: real -> real, j: nat, k: nat, c: Client, id: nat,
                i: Invitation)
    requires IsRun(ws, ops, rs, pow10) && IsPower(pow10) && j <= k < |ws|
    requires InSlot(ws[j], c, id, i) && i in ws[k].invs
    ensures InSlot(ws[k], c, id, i)
  {
    ExactlyTwoSlots(ws, ops, rs, pow10, j, i, c, id);
    ExactlyTwoSlots(ws, ops, rs, pow10, k, i, c, id);
    RunOnward(ws, ops, rs, pow10, j, k);
  }

  /** Every id in use is below the client's peak number of simultaneous invitations. */
  lemma IdsBelowPeak(ws: seq<World>, ops: seq<Op>, rs: seq<int>, pow10: real -> real, k: nat, c: Client, id: nat,
                     i: Invitation)
    requires IsRun(ws, ops, rs, pow10) && IsPower(pow10) && k < |ws|
    requires InSlot(ws[k], c, id, i)
    ensures id < ws[k].clients[c].peak && Occupied(ws[k].clients[c].slots, null) <= ws[k].clients[c].peak
  {
    RunGood(ws, ops, rs, pow10, k);
    assert Key(0);
    assert Worlds.TableOk(ws[k], c) && SlotOk(ws[k], c, id);
  }

  /** Conservation: at any time the ratings add up to 1500 for each player. */
  lemma RatingsAddUp(ws: seq<World>, ops: seq<Op>, rs: seq<int>, pow10: real -> real, k: nat)
    requires IsRun(ws, ops, rs, pow10) && IsPower(pow10) && k < |ws|
    ensures |ws[k].ratings| == |ws[k].players| && Sum(ws[k].ratings) == 1500.0 * |ws[k].players| as real
  {
    RunGood(ws, ops, rs, pow10, k);
    assert Key(0);
  }

  /** A game that was running and is not any more has been posted, and exactly once. */
  lemma PostedExactlyOnce(ws: seq<World>, ops: seq<Op>, rs: seq<int>, pow10: real -> real, j: nat, k: nat,
                          i: Invitation)
    requires IsRun(ws, ops, rs, pow10) && IsPower(pow10) && j <= k < |ws|
    requires i in ws[j].invs && ws[j].invs[i].game.Some? && i !in ws[k].invs
    ensures exists n :: 0 <= n < |ws[k].posts| && ws[k].posts[n].inv == i
                        && forall m :: 0 <= m < |ws[k].posts| && ws[k].posts[m].inv == i ==> m == n
  {
    RunOnward(ws, ops, rs, pow10, j, k);
    RunGood(ws, ops, rs, pow10, k);
    assert Key(0);
    var n :| 0 <= n < |ws[k].posts| && ws[k].posts[n].inv == i;
    forall m | 0 <= m < |ws[k].posts| && ws[k].posts[m].inv == i
      ensures m == n
    {
      assert !(m < n) && !(n < m);
    }
  }

  /** How the game of an invitation ends by this operation: with the move's winner or, given up, with the opponent. */
  ghost predicate EndsWith(w: World, op: Op, i: Invitation, winner: Role)
    requires i in w.invs && w.invs[i].game.Some?
  {
    if op.MoveOp? then
      var g := w.invs[i].game.value;
      var m := MoveIn(g, RoleOf(i, op.c), op.move);
      |g.cells| == 9 && m.Some? && m.value.WellFormed()
      && var g' := Play(g, RoleOf(i, op.c), m.value.num - 1); g'.over && winner == g'.winner
    else (op.ResignOp? || op.LogOutOp?) && winner == Opponent(RoleOf(i, op.c))
  }

  /** A result that an operation on w posts: of a game that was running, the FIRST-role player first. */
  ghost predicate PostRight(w: World, op: Op, p: Posted) {
    && p.inv in w.invs && w.invs[p.inv].game.Some?
    && p.inv.src in w.clients && p.inv.target in w.clients
    && p.first == w.clients[if p.inv.srcRole == First then p.inv.src else p.inv.target].player
    && p.second == w.clients[if p.inv.srcRole == First then p.inv.target else p.inv.src].player
    && (op.MoveOp? || op.ResignOp? || op.LogOutOp?) && (op.c == p.inv.src || op.c == p.inv.target)
    && exists winner :: EndsWith(w, op, p.inv, winner) && p.result == ResultCode(winner)
  }

  lemma SlotPostRight(w: World, c: Client, outs: seq<Outcome>, k: nat)
    requires Ready(w, c, k)
    ensures forall p :: p in Results(w, c, k) ==> PostRight(w, LogOutOp(c, outs), p)
  {
    if InGame(w, c, k) {
      EntryOk(w, c, k);
      var i: Invitation := w.clients[c].slots[k];
      assert EndsWith(w, LogOutOp(c, outs), i, Opponent(RoleOf(i, c)));
    }
  }

  lemma {:induction false} SlotsPostRight(w: World, c: Client, outs: seq<Outcome>, n: nat)
    requires Good(w) && c in w.clients && w.clients[c].registered && n <= |w.clients[c].slots|
    ensures forall p :: p in AllResults(w, c, n) ==> PostRight(w, LogOutOp(c, outs), p)
  {
    if n > 0 {
      SlotsPostRight(w, c, outs, n - 1);
      SlotPostRight(w, c, outs, n - 1);
    }
  }

  lemma LogOutPosts(w: World, c: Client, outs: seq<Outcome>, pow10: real -> real, w': World)
    requires LogsOut(w, c, outs, pow10, w')
    ensures forall k :: |w.posts| <= k < |w'.posts| ==> PostRight(w, LogOutOp(c, outs), w'.posts[k])
  {
    assert Key(0);
    assert Cleared(w, ClearAll(w, c, outs, pow10), c, CAP);
    SlotsPostRight(w, c, outs, CAP);
    forall k | |w.posts| <= k < |w'.posts|
      ensures PostRight(w, LogOutOp(c, outs), w'.posts[k])
    {
      assert w'.posts[k] in AllResults(w, c, CAP);
    }
  }

  lemma QuitPosts(w: World, op: Op, pow10: real -> real, w': World, r: int)
    requires op.ResignOp? && Good(w) && Takes(w, op, pow10, w', r)
    ensures forall k :: |w.posts| <= k < |w'.posts| ==> PostRight(w, op, w'.posts[k])
  {
    assert Key(0);
    if InGame(w, op.c, op.id) {
      EntryOk(w, op.c, op.id);
      var i: Invitation := w.clients[op.c].slots[op.id];
      assert EndsWith(w, op, i, Opponent(RoleOf(i, op.c)));
    }
  }

  lemma EndedPost(w: World, op: Op, pow10: real -> real, oks: seq<bool>)
    requires op.MoveOp? && Ready(w, op.c, op.id) && Playable(w, op.c, op.id, op.move) && IsPower(pow10) && |oks| == 3
    ensures var w' := Advance(w, op.c, op.id, op.move, oks, pow10).0;
            forall k :: |w.posts| <= k < |w'.posts| ==> PostRight(w, op, w'.posts[k])
  {
    EntryOk(w, op.c, op.id);
    var i: Invitation := w.clients[op.c].slots[op.id];
    var g := w.invs[i].game.value;
    assert Worlds.GameOk(w, i) by {
      assert Key(0);
    }
    var g' := Play(g, RoleOf(i, op.c), MoveIn(g, RoleOf(i, op.c), op.move).value.num - 1);
    if g'.over {
      assert EndsWith(w, op, i, g'.winner);
    }
  }

  lemma MovePosts(w: World, op: Op, pow10: real -> real, w': World, r: int)
    requires op.MoveOp? && Good(w) && Takes(w, op, pow10, w', r)
    ensures forall k :: |w.posts| <= k < |w'.posts| ==> PostRight(w, op, w'.posts[k])
  {
    assert Key(0);
    if Playable(w, op.c, op.id, op.move) {
      EndedPost(w, op, pow10, op.oks);
    }
  }

  /** Only moves, resignations and logouts post results, and only right ones. */
  lemma StepPosts(w: World, op: Op, pow10: real -> real, w': World, r: int)
    requires Good(w) && Takes(w, op, pow10, w', r)
    ensures forall k :: |w.posts| <= k < |w'.posts| ==> PostRight(w, op, w'.posts[k])
  {
    match op
    case ResignOp(_, _, _) => QuitPosts(w, op, pow10, w', r);
    case MoveOp(_, _, _, _) => MovePosts(w, op, pow10, w', r);
    case LogOutOp(c, outs) => LogOutPosts(w, c, outs, pow10, w');
    case _ => assert Key(0);
  }

  /** Every result among the posts was posted by the operation that ended its game, with the players in order. */
  lemma {:induction false} EveryPostIsRight(ws: seq<World>, ops: seq<Op>, rs: seq<int>, pow10: real -> real, k: nat,
                                            n: nat) returns (j: nat)
    requires IsRun(ws, ops, rs, pow10) && IsPower(pow10) && k < |ws| && n < |ws[k].posts|
    ensures j < k && |ws[j].posts| <= n < |ws[j + 1].posts| && ws[j + 1].posts[n] == ws[k].posts[n]
    ensures PostRight(ws[j], ops[j], ws[k].posts[n])
  {
    RunGood(ws, ops, rs, pow10, k - 1);
    StepOnward(ws[k - 1], ops[k - 1], pow10, ws[k], rs[k - 1]);
    if n < |ws[k - 1].posts| {
      j := EveryPostIsRight(ws, ops, rs, pow10, k - 1, n);
    } else {
      j := k - 1;
      StepPosts(ws[j], ops[j], pow10, ws[k], rs[j]);
    }
  }

  /** A running game has not been posted. */
  lemma RunningNotPosted(ws: seq<World>, ops: seq<Op>, rs: seq<int>, pow10: real -> real, k: nat, i: Invitation)
    requires IsRun(ws, ops, rs, pow10) && IsPower(pow10) && k < |ws| && i in ws[k].invs
    ensures !PostedFor(ws[k], i)
  {
    RunGood(ws, ops, rs, pow10, k);
    assert Key(0);
  }

  /** A user name finds at most one client. */
  lemma OneAddressee(ws: seq<World>, ops: seq<Op>, rs: seq<int>, pow10: real -> real, k: nat, name: string, c: Client,
                     d: Client)
    requires IsRun(ws, ops, rs, pow10) && IsPower(pow10) && k < |ws|
    requires Addressee(ws[k], name, c) && Addressee(ws[k], name, d)
    ensures c == d
  {
    RunGood(ws, ops, rs, pow10, k);
    assert Key(0);
    assert PlayerOk(ws[k], c) && PlayerOk(ws[k], d);
  }

  // ---------------------------------------------------------------- notifications and ids

  /** A notification's slot is still the recipient's slot, for as long as the invitation lives. */
  ghost predicate StillNamed(w: World, s: Sent) {
    s.about.Some? && s.about.value.inv in w.invs ==>
        s.about.value.slot == SlotIn(w.invs[s.about.value.inv], s.about.value.inv, s.about.value.to)
  }

  ghost predicate NewsTrue(w: World, w': World) {
    forall k :: |w.log| <= k < |w'.log| ==> StillNamed(w', w'.log[k])
  }

  lemma StepNews(w: World, op: Op, pow10: real -> real, w': World, r: int)
    requires Good(w) && IsPower(pow10) && Takes(w, op, pow10, w', r)
    ensures NewsTrue(w, w')
  {
    match op
    case Connect(_) =>
    case Unregister(_) =>
    case Register(_) =>
    case LogIn(_, _) =>
    case Invite(_, _, _, _, _, _) => InviteNews(w, op, pow10, w', r);
    case Revoke(c, id, ok) => WithdrawNews(w, c, id, true, ok, w', r);
    case Decline(c, id, ok) => WithdrawNews(w, c, id, false, ok, w', r);
    case AcceptOp(_, _, _, _) =>
      assert Key(0);
    case ResignOp(c, id, oks) => QuitNews(w, c, id, oks, pow10, w', r);
    case MoveOp(c, id, move, oks) => MoveNews(w, c, id, move, oks, pow10, w', r);
    case LogOutOp(c, outs) => LogOutNews(w, c, outs, pow10, w');
    case Reply(_, _, _, _, _) =>
  }

  lemma InviteNews(w: World, op: Op, pow10: real -> real, w': World, r: int)
    requires op.Invite? && Good(w) && Takes(w, op, pow10, w', r)
    ensures NewsTrue(w, w')
  {
    assert Key(0);
  }

  lemma WithdrawNews(w: World, c: Client, id: nat, asSource: bool, ok: bool, w': World, r: int)
    requires Ready(w, c, id) && Withdraws(w, c, id, asSource, ok, w', r)
    ensures NewsTrue(w, w')
  {
    assert Key(0);
  }

  lemma QuitNews(w: World, c: Client, id: nat, oks: seq<bool>, pow10: real -> real, w': World, r: int)
    requires Ready(w, c, id) && Quits(w, c, id, oks, pow10, w', r)
    ensures NewsTrue(w, w')
  {
    assert Key(0);
  }

  lemma MoveNews(w: World, c: Client, id: nat, move: string, oks: seq<bool>, pow10: real -> real, w': World, r: int)
    requires Ready(w, c, id) && Advances(w, c, id, move, oks, pow10, w', r)
    ensures NewsTrue(w, w')
  {
    assert Key(0);
  }

  lemma LogOutNews(w: World, c: Client, outs: seq<Outcome>, pow10: real -> real, w': World)
    requires LogsOut(w, c, outs, pow10, w')
    ensures NewsTrue(w, w')
  {
    assert Key(0);
    var v := ClearAll(w, c, outs, pow10);
    assert Cleared(w, v, c, CAP);
  }

  lemma {:induction false} RunTrue(ws: seq<World>, ops: seq<Op>, rs: seq<int>, pow10: real -> real, k: nat)
    requires IsRun(ws, ops, rs, pow10) && IsPower(pow10) && k < |ws|
    ensures forall l :: 0 <= l < |ws[k].log| ==> StillNamed(ws[k], ws[k].log[l])
  {
    if k > 0 {
      RunTrue(ws, ops, rs, pow10, k - 1);
      RunGood(ws, ops, rs, pow10, k - 1);
      StepNews(ws[k - 1], ops[k - 1], pow10, ws[k], rs[k - 1]);
      StepOnward(ws[k - 1], ops[k - 1], pow10, ws[k], rs[k - 1]);
      forall l | 0 <= l < |ws[k].log|
        ensures StillNamed(ws[k], ws[k].log[l])
      {
        if l < |ws[k - 1].log| {
          assert ws[k].log[l] == ws[k - 1].log[l] && StillNamed(ws[k - 1], ws[k - 1].log[l]);
          assert ws[k].log[l].about.Some? ==> LoggedFor(ws[k - 1], ws[k].log[l].about.value.inv);
        }
      }
    }
  }

  /**
   The id in a notification: sent to a party, about an invitation its own table held in that slot at the
   event; and for as long as the invitation lives, that slot is its place.  The eight bits of the header
   carry the slot exactly when it is below 256, which a peak of at most 256 ensures.
   */
  lemma NotifiedIdNamesInvitation(ws: seq<World>, ops: seq<Op>, rs: seq<int>, pow10: real -> real, k: nat, l: nat)
    requires IsRun(ws, ops, rs, pow10) && IsPower(pow10) && k < |ws| && l < |ws[k].log|
    requires ws[k].log[l].about.Some?
    ensures var (p, a) := (ws[k].log[l].packet, ws[k].log[l].about.value);
            && (a.to == a.inv.src || a.to == a.inv.target) && p.fd == a.to.fd && a.held && a.slot < a.peak
            && (p.id == a.slot <==> a.slot < 256)
            && (a.peak <= 256 ==> p.id == a.slot)
            && (a.inv in ws[k].invs ==> InSlot(ws[k], a.to, a.slot, a.inv))
  {
    RunGood(ws, ops, rs, pow10, k);
    RunTrue(ws, ops, rs, pow10, k);
    assert Key(0);
    var s := ws[k].log[l];
    assert Addressed(s) && StillNamed(ws[k], s);
    var a := s.about.value;
    ExactlyTwoSlots(ws, ops, rs, pow10, k, a.inv, a.to, a.slot);
  }
}
