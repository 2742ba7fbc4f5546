/** What each operation of module Worlds keeps. */
module WorldKept {
  import opened Roles
  import opened Sealing
  import opened Slots
  import opened TicTacToe
  import opened Games
  import opened Elo
  import opened Players
  import opened Lobby
  import opened Operations
  import opened Worlds

  /** The tables depend on the clients and on the slots of the invitations only. */
  lemma TablesFrame(w: World, w': World)
    requires TablesOk(w)
    requires w'.clients == w.clients && w'.invs.Keys == w.invs.Keys
    requires forall i :: i in w.invs ==>
      w'.invs[i].srcSlot == w.invs[i].srcSlot && w'.invs[i].targetSlot == w.invs[i].targetSlot
    ensures TablesOk(w')
  {
    forall c | c in w'.clients
      ensures TableOk(w', c)
    {
      assert TableOk(w, c);
      forall k | 0 <= k < CAP
        ensures SlotOk(w', c, k)
      {
        assert SlotOk(w, c, k);
      }
    }
    forall i | i in w'.invs
      ensures InvOk(w', i)
    {
      assert InvOk(w, i);
    }
  }

  lemma GamesFrame(w: World, w': World)
    requires GamesOk(w)
    requires forall i :: i in w'.invs ==> i in w.invs && w'.invs[i].game == w.invs[i].game
    ensures GamesOk(w')
  {
    forall i | i in w'.invs
      ensures GameOk(w', i)
    {
      assert GameOk(w, i);
    }
  }

  lemma PlayersFrame(w: World, w': World)
    requires PlayersOk(w)
    requires w'.players == w.players && |w'.ratings| == |w.ratings|
    requires forall c :: c in w'.clients ==> c in w.clients && w'.clients[c].player == w.clients[c].player
    ensures PlayersOk(w')
  {
    forall c | c in w'.clients
      ensures PlayerOk(w', c)
    {
      assert PlayerOk(w, c);
    }
  }

  // ---------------------------------------------------------------- one invitation leaves

  lemma DetachTable(w: World, i: Invitation, c: Client)
    requires TablesOk(w) && i in w.invs && InvOk(w, i)
    requires c in Detach(w, i).clients
    ensures c in w.clients && TableOk(Detach(w, i), c)
    ensures Detach(w, i).clients[c].player == w.clients[c].player
    ensures Detach(w, i).clients[c].registered == w.clients[c].registered
  {
    assert TableOk(w, c);
    var v := w.invs[i];
    if c == i.src {
      OccupiedUpdate(w.clients[c].slots, null, v.srcSlot, null);
    } else if c == i.target {
      OccupiedUpdate(w.clients[c].slots, null, v.targetSlot, null);
    }
    var w' := Detach(w, i);
    forall k | 0 <= k < CAP
      ensures SlotOk(w', c, k)
    {
      assert SlotOk(w, c, k);
    }
  }

  /** A slot that holds another invitation is as it was, and its client is still there. */
  lemma DetachKeepsSlot(w: World, i: Invitation, c: Client, k: nat, other: Invitation)
    requires TablesOk(w) && i in w.invs && InvOk(w, i)
    requires other != i && InSlot(w, c, k, other)
    ensures InSlot(Detach(w, i), c, k, other)
    ensures Detach(w, i).clients[c].player == w.clients[c].player
  {
    var v := w.invs[i];
    var slots := w.clients[c].slots;
    if c == i.src {
      OccupiedBounds(slots[v.srcSlot := null], null);
      assert slots[v.srcSlot := null][k] == other;
    } else if c == i.target {
      OccupiedBounds(slots[v.targetSlot := null], null);
      assert slots[v.targetSlot := null][k] == other;
    }
  }

  lemma DetachTables(w: World, i: Invitation)
    requires TablesOk(w) && i in w.invs && InvOk(w, i)
    ensures TablesOk(Detach(w, i))
  {
    var w' := Detach(w, i);
    forall c | c in w'.clients
      ensures TableOk(w', c)
    {
      DetachTable(w, i, c);
    }
    forall j | j in w'.invs
      ensures InvOk(w', j)
    {
      assert InvOk(w, j);
      DetachKeepsSlot(w, i, j.src, w.invs[j].srcSlot, j);
      DetachKeepsSlot(w, i, j.target, w.invs[j].targetSlot, j);
    }
  }

  lemma DetachInv(w: World, i: Invitation)
    requires Inv(w) && i in w.invs
    ensures InvOk(w, i) && Inv(Detach(w, i))
    ensures Detach(w, i).clients.Keys <= w.clients.Keys
  {
    assert InvOk(w, i);
    DetachTables(w, i);
    forall c | c in Detach(w, i).clients
      ensures c in w.clients && Detach(w, i).clients[c].player == w.clients[c].player
      ensures Detach(w, i).clients[c].registered == w.clients[c].registered
    {
      DetachTable(w, i, c);
    }
    GamesFrame(w, Detach(w, i));
    PlayersFrame(w, Detach(w, i));
  }

  // ---------------------------------------------------------------- packets and results

  lemma NoticeAddressed(w: World, i: Invitation, to: Client, kind: Kind, role: Role, payload: Payload, ok: bool)
    requires TablesOk(w) && i in w.invs && (to == i.src || to == i.target)
    requires kind != AckPkt && kind != NackPkt && !payload.Piece?
    ensures InvOk(w, i) && to in w.clients && Addressed(Notice(w, i, to, kind, role, payload, ok))
  {
    assert InvOk(w, i) && TableOk(w, to);
    assert SlotOk(w, to, SlotIn(w.invs[i], i, to));
  }

  lemma LogInv(w: World, more: seq<Sent>)
    requires Inv(w)
    requires forall k :: 0 <= k < |more| ==> Addressed(more[k])
    ensures Inv(w.(log := w.log + more))
  {
    var w' := w.(log := w.log + more);
    TablesFrame(w, w');
    GamesFrame(w, w');
    PlayersFrame(w, w');
  }

  lemma PostInv(w: World, before: World, i: Invitation, pow10: real -> real, winner: Role)
    requires Inv(w) && Inv(before) && IsPower(pow10)
    requires i in before.invs && i !in w.invs
    requires w.players == before.players
    requires forall k :: 0 <= k < |w.posts| ==> w.posts[k].inv != i
    ensures InvOk(before, i) && Inv(PostGame(w, before, i, pow10, winner))
  {
    assert InvOk(before, i);
    var p: Player := before.clients[i.src].player;
    var q: Player := before.clients[i.target].player;
    assert PlayerOk(before, i.src) && PlayerOk(before, i.target);
    var first := if i.srcRole == First then p else q;
    var second := if i.srcRole == First then q else p;
    assert first.id != second.id;
    PostAtConserves(pow10, w.ratings, first.id, second.id, ResultCode(winner));
    var w' := PostGame(w, before, i, pow10, winner);
    TablesFrame(w, w');
    GamesFrame(w, w');
    PlayersFrame(w, w');
  }

  // ---------------------------------------------------------------- the operations

  /** The invitation goes into both tables: in a state w' that differs from w in just that. */
  ghost predicate Inserted(w: World, w': World, i: Invitation, j: nat, k: nat)
    requires i.src in w.clients && i.target in w.clients
  {
    && j < |w.clients[i.src].slots| && k < |w.clients[i.target].slots|
    && i !in w.invs && i.src != i.target
    && j == FirstFree(w.clients[i.src].slots) && k == FirstFree(w.clients[i.target].slots)
    && w'.clients == w.clients[i.src := PutIn(w.clients[i.src], j, i)][i.target := PutIn(w.clients[i.target], k, i)]
    && w'.invs == w.invs[i := InvV(j, k, None)]
  }

  lemma InsertedTable(w: World, w': World, i: Invitation, j: nat, k: nat, c: Client)
    requires TablesOk(w) && i.src in w.clients && i.target in w.clients && Inserted(w, w', i, j, k)
    requires c in w.clients
    ensures TableOk(w', c)
  {
    assert TableOk(w, c);
    var slot := if c == i.src then j else k;
    if c == i.src || c == i.target {
      OccupiedUpdate(w.clients[c].slots, null, slot, i);
      OccupiedPrefix(w.clients[c].slots, null, slot);
    }
    forall n | 0 <= n < CAP
      ensures SlotOk(w', c, n)
    {
      assert SlotOk(w, c, n);
    }
  }

  lemma InsertedTables(w: World, w': World, i: Invitation, j: nat, k: nat)
    requires TablesOk(w) && i.src in w.clients && i.target in w.clients && Inserted(w, w', i, j, k)
    requires i.srcRole != NullRole && i.targetRole != NullRole && i.srcRole != i.targetRole
    requires w.clients[i.src].player != null && w.clients[i.target].player != null
    requires w.clients[i.src].player != w.clients[i.target].player
    ensures TablesOk(w')
  {
    forall c | c in w'.clients
      ensures TableOk(w', c)
    {
      InsertedTable(w, w', i, j, k, c);
    }
    forall h | h in w'.invs
      ensures InvOk(w', h)
    {
      if h != i {
        assert InvOk(w, h);
      }
    }
  }

  lemma MakeInv(w: World, s: Client, t: Client, sr: Role, tr: Role, i: Invitation, ok: bool)
    requires Good(w) && s in w.clients && t in w.clients
    requires i.src == s && i.target == t && i.srcRole == sr && i.targetRole == tr && i !in w.invs
    requires forall k :: 0 <= k < |w.posts| ==> w.posts[k].inv != i
    requires sr != tr
    requires w.clients[s].player != null && w.clients[t].player != null && w.clients[s].player != w.clients[t].player
    ensures Good(Make(w, s, t, sr, tr, i, ok).0)
  {
    assert Key(0);
    var w' := Make(w, s, t, sr, tr, i, ok).0;
    if w' != w {
      var j, k := FirstFree(w.clients[s].slots), FirstFree(w.clients[t].slots);
      var w1 := w'.(log := w.log);
      InsertedInv(w, w1, i, j, k);
      InvitedAddressed(w1, i, k, w'.log[|w.log|]);
      LogInv(w1, [w'.log[|w.log|]]);
    }
  }

  lemma InsertedInv(w: World, w': World, i: Invitation, j: nat, k: nat)
    requires Inv(w) && i.src in w.clients && i.target in w.clients && Inserted(w, w', i, j, k)
    requires i.srcRole != NullRole && i.targetRole != NullRole && i.srcRole != i.targetRole
    requires w.clients[i.src].player != null && w.clients[i.target].player != null
    requires w.clients[i.src].player != w.clients[i.target].player
    requires w' == w.(clients := w'.clients, invs := w'.invs)
    requires forall k :: 0 <= k < |w.posts| ==> w.posts[k].inv != i
    ensures Inv(w') && i.src in w'.clients && i.target in w'.clients && InSlot(w', i.target, k, i)
    ensures w'.clients[i.src].player == w.clients[i.src].player
  {
    InsertedTables(w, w', i, j, k);
    PlayersFrame(w, w');
    forall h | h in w'.invs
      ensures GameOk(w', h)
    {
      if h != i {
        assert GameOk(w, h);
      }
    }
  }

  /** The packet of a new invitation: a user's name always fits. */
  lemma InvitedAddressed(w: World, i: Invitation, k: nat, sent: Sent)
    requires TablesOk(w) && PlayersOk(w) && i.src in w.clients && w.clients[i.src].player != null
    requires InSlot(w, i.target, k, i)
    requires sent.packet.kind == InvitedPkt && sent.packet.payload == Carried(Name(w.clients[i.src].player.name))
    requires sent.packet.fd == i.target.fd && sent.packet.id == k % 256
    requires sent.about == Some(Subject(i, i.target, k, true, w.clients[i.target].peak, w.clients[i.target].registered))
    ensures Addressed(sent)
  {
    assert TableOk(w, i.target) && SlotOk(w, i.target, k) && PlayerOk(w, i.src);
  }

  lemma WithdrawInv(w: World, c: Client, id: nat, asSource: bool, ok: bool)
    requires Good(w) && Indexes(w, c, id)
    ensures Good(Withdraw(w, c, id, asSource, ok).0)
  {
    assert Key(0);
    if Withdrawable(w, c, id, asSource) {
      var i: Invitation := w.clients[c].slots[id];
      DetachInv(w, i);
      var notice := Notice(w, i, OtherParty(i, c), if asSource then RevokedPkt else DeclinedPkt, NullRole, Nothing, ok);
      NoticeAddressed(w, i, OtherParty(i, c), if asSource then RevokedPkt else DeclinedPkt, NullRole, Nothing, ok);
      LogInv(Detach(w, i), [notice]);
    }
  }

  /** What a withdrawal comes to. */
  lemma WithdrawIs(w: World, i: Invitation, asSource: bool, ok: bool, log: seq<Sent>)
    requires Good(w) && i in w.invs && w.invs[i].game.None?
    requires i.src in w.clients && i.target in w.clients
    requires var other := if asSource then i.target else i.src;
             log == w.log + [Notice(w, i, other, if asSource then RevokedPkt else DeclinedPkt, NullRole, Nothing, ok)]
    ensures InvOk(w, i)
    ensures var c := if asSource then i.src else i.target;
            var w' := Detach(w, i).(log := log);
            Good(w') && Withdraws(w, c, SlotIn(w.invs[i], i, c), asSource, ok, w', if ok then 0 else -1)
  {
    assert Key(0);
    assert InvOk(w, i);
    var c := if asSource then i.src else i.target;
    WithdrawInv(w, c, SlotIn(w.invs[i], i, c), asSource, ok);
  }

  /** What an acceptance comes to. */
  lemma AcceptIs(w: World, i: Invitation, ok: bool, log: seq<Sent>)
    requires Good(w) && i in w.invs && w.invs[i].game.None? && i.src in w.clients
    requires log == w.log + [Notice(w, i, i.src, AcceptedPkt, i.srcRole,
                                    if i.srcRole == First then Position(Initial().cells, First) else Nothing, ok)]
    ensures var w' := w.(invs := w.invs[i := w.invs[i].(game := Some(Initial()))], log := log);
            var told := if i.srcRole == First then None else Some(Position(Initial().cells, First));
            Good(w') && Accepts(w, i.target, w.invs[i].targetSlot, ok, w', if ok then 0 else -1, told)
  {
    assert Key(0);
    assert InvOk(w, i);
    AcceptInv(w, i.target, w.invs[i].targetSlot, ok);
  }

  /** Changing the game of one invitation to another running one. */
  lemma GameInv(w: World, i: Invitation, g: Ttt)
    requires Inv(w) && i in w.invs && Sound(g) && !g.over
    ensures Inv(w.(invs := w.invs[i := w.invs[i].(game := Some(g))]))
  {
    var w' := w.(invs := w.invs[i := w.invs[i].(game := Some(g))]);
    TablesFrame(w, w');
    PlayersFrame(w, w');
    forall j | j in w'.invs
      ensures GameOk(w', j)
    {
      assert GameOk(w, j);
    }
  }

  lemma AcceptInv(w: World, c: Client, id: nat, ok: bool)
    requires Good(w) && Indexes(w, c, id)
    ensures Good(Accept(w, c, id, ok).0)
  {
    assert Key(0);
    if Withdrawable(w, c, id, false) {
      var i: Invitation := w.clients[c].slots[id];
      assert InvOk(w, i);
      var payload := if i.srcRole == First then Position(Initial().cells, First) else Nothing;
      NoticeAddressed(w, i, i.src, AcceptedPkt, i.srcRole, payload, ok);
      BlankBoardSound(Initial());
      GameInv(w, i, Initial());
      var w1 := w.(invs := w.invs[i := w.invs[i].(game := Some(Initial()))]);
      LogInv(w1, [Notice(w, i, i.src, AcceptedPkt, i.srcRole, payload, ok)]);
    }
  }

  /** A game ends: packets, both tables, the result. */
  lemma EndInv(w: World, i: Invitation, more: seq<Sent>, pow10: real -> real, winner: Role)
    requires Inv(w) && i in w.invs && IsPower(pow10)
    requires forall k :: 0 <= k < |more| ==> Addressed(more[k])
    ensures InvOk(w, i)
    ensures Inv(PostGame(Detach(w, i).(log := w.log + more), w, i, pow10, winner))
  {
    DetachInv(w, i);
    LogInv(Detach(w, i), more);
    PostInv(Detach(w, i).(log := w.log + more), w, i, pow10, winner);
  }

  lemma QuitInv(w: World, c: Client, id: nat, oks: seq<bool>, pow10: real -> real)
    requires Good(w) && Indexes(w, c, id) && IsPower(pow10)
    requires InGame(w, c, id) ==> |oks| == 3
    ensures Good(Quit(w, c, id, oks, pow10).0)
  {
    assert Key(0);
    if InGame(w, c, id) {
      var i: Invitation := w.clients[c].slots[id];
      assert InvOk(w, i) && TableOk(w, c) && SlotOk(w, c, id);
      var other := OtherParty(i, c);
      var winner := Concede(w.invs[i].game.value, RoleOf(i, c)).winner;
      NoticeAddressed(w, i, other, ResignedPkt, NullRole, Nothing, oks[0]);
      NoticeAddressed(w, i, c, EndedPkt, winner, Nothing, oks[1]);
      NoticeAddressed(w, i, other, EndedPkt, winner, Nothing, oks[2]);
      EndInv(w, i, [Notice(w, i, other, ResignedPkt, NullRole, Nothing, oks[0]),
                    Notice(w, i, c, EndedPkt, winner, Nothing, oks[1]),
                    Notice(w, i, other, EndedPkt, winner, Nothing, oks[2])], pow10, winner);
    }
  }

  lemma AdvanceInv(w: World, c: Client, id: nat, move: string, oks: seq<bool>, pow10: real -> real)
    requires Good(w) && Indexes(w, c, id) && IsPower(pow10)
    requires Playable(w, c, id, move) ==> |oks| == 3
    ensures Good(Advance(w, c, id, move, oks, pow10).0)
  {
    assert Key(0);
    if Playable(w, c, id, move) {
      var i: Invitation := w.clients[c].slots[id];
      assert InvOk(w, i) && GameOk(w, i) && TableOk(w, c) && SlotOk(w, c, id);
      var g := w.invs[i].game.value;
      var m := MoveIn(g, RoleOf(i, c), move).value;
      OnlyMoverWins(g, RoleOf(i, c), m.num - 1);
      AdvanceTo(w, c, i, Play(g, RoleOf(i, c), m.num - 1), oks, pow10);
    }
  }

  /** What an accepted move that ends the game comes to. */
  lemma AdvanceEnds(w: World, c: Client, id: nat, i: Invitation, move: string, g: Ttt, log: seq<Sent>, oks: seq<bool>,
                    pow10: real -> real)
    requires Good(w) && Indexes(w, c, id) && IsPower(pow10) && |oks| == 3
    requires Playable(w, c, id, move) && w.clients[c].slots[id] == i
    requires |w.invs[i].game.value.cells| == 9
    requires g == Play(w.invs[i].game.value, RoleOf(i, c),
      MoveIn(w.invs[i].game.value, RoleOf(i, c), move).value.num - 1) && g.over
    requires c in w.clients && OtherParty(i, c) in w.clients
    requires log == w.log + [Notice(w, i, OtherParty(i, c), MovedPkt, NullRole, Position(g.cells, g.turn), oks[0]),
                             Notice(w, i, c, EndedPkt, g.winner, Nothing, oks[1]),
                             Notice(w, i, OtherParty(i, c), EndedPkt, g.winner, Nothing, oks[2])]
    ensures InvOk(w, i)
    ensures Advance(w, c, id, move, oks, pow10) == (PostGame(Detach(w, i).(log := log), w, i, pow10, g.winner), 0)
  {
    assert Key(0);
    assert InvOk(w, i) && Worlds.TableOk(w, c) && SlotOk(w, c, id);
  }

  /** What an accepted move that does not end the game comes to. */
  lemma AdvanceContinues(w: World, c: Client, id: nat, i: Invitation, move: string, g: Ttt, log: seq<Sent>,
                         oks: seq<bool>, pow10: real -> real)
    requires Good(w) && Indexes(w, c, id) && IsPower(pow10) && |oks| == 3
    requires Playable(w, c, id, move) && w.clients[c].slots[id] == i
    requires |w.invs[i].game.value.cells| == 9
    requires g == Play(w.invs[i].game.value, RoleOf(i, c),
      MoveIn(w.invs[i].game.value, RoleOf(i, c), move).value.num - 1) && !g.over
    requires c in w.clients && OtherParty(i, c) in w.clients
    requires log == w.log + [Notice(w, i, OtherParty(i, c), MovedPkt, NullRole, Position(g.cells, g.turn), oks[0])]
    ensures Advance(w, c, id, move, oks, pow10) == (w.(invs := w.invs[i := w.invs[i].(game := Some(g))], log := log), 0)
  {
    assert Key(0);
    assert InvOk(w, i) && Worlds.TableOk(w, c) && SlotOk(w, c, id);
  }

  lemma AdvanceTo(w: World, c: Client, i: Invitation, g: Ttt, oks: seq<bool>, pow10: real -> real)
    requires Inv(w) && i in w.invs && (c == i.src || c == i.target) && IsPower(pow10) && |oks| == 3
    requires |g.cells| == 9 && Sound(g)
    ensures InvOk(w, i) && c in w.clients && OtherParty(i, c) in w.clients
    ensures var other := OtherParty(i, c);
            var moved := Notice(w, i, other, MovedPkt, NullRole, Position(g.cells, g.turn), oks[0]);
            if g.over then
              Inv(PostGame(Detach(w, i).(log := w.log + [moved, Notice(w, i, c, EndedPkt, g.winner, Nothing, oks[1]),
                                                         Notice(w, i, other, EndedPkt, g.winner, Nothing, oks[2])]), w,
                                                             i, pow10, g.winner))
            else
              Inv(w.(invs := w.invs[i := w.invs[i].(game := Some(g))], log := w.log + [moved]))
  {
    assert InvOk(w, i);
    var other := OtherParty(i, c);
    var text := Position(g.cells, g.turn);
    var moved := Notice(w, i, other, MovedPkt, NullRole, text, oks[0]);
    NoticeAddressed(w, i, other, MovedPkt, NullRole, text, oks[0]);
    if g.over {
      NoticeAddressed(w, i, c, EndedPkt, g.winner, Nothing, oks[1]);
      NoticeAddressed(w, i, other, EndedPkt, g.winner, Nothing, oks[2]);
      EndInv(w, i, [moved, Notice(w, i, c, EndedPkt, g.winner, Nothing, oks[1]),
          Notice(w, i, other, EndedPkt, g.winner, Nothing, oks[2])],
             pow10, g.winner);
    } else {
      GameInv(w, i, g);
      LogInv(w.(invs := w.invs[i := w.invs[i].(game := Some(g))]), [moved]);
    }
  }

  // ---------------------------------------------------------------- clients and players

  lemma ConnectTable(w: World, c: Client, d: Client)
    requires TablesOk(w) && c !in w.clients && (d == c || d in w.clients)
    ensures Worlds.TableOk(w.(clients := w.clients[c := NewClient()]), d)
  {
    var w' := w.(clients := w.clients[c := NewClient()]);
    if d == c {
      OccupiedNone(NewClient().slots, null);
    } else {
      assert Worlds.TableOk(w, d);
      forall k | 0 <= k < CAP
        ensures SlotOk(w', d, k)
      {
        assert SlotOk(w, d, k);
      }
    }
  }

  lemma ConnectTables(w: World, c: Client)
    requires TablesOk(w) && c !in w.clients
    ensures TablesOk(w.(clients := w.clients[c := NewClient()]))
  {
    var w' := w.(clients := w.clients[c := NewClient()]);
    forall d | d in w'.clients
      ensures Worlds.TableOk(w', d)
    {
      ConnectTable(w, c, d);
    }
    forall i | i in w'.invs
      ensures InvOk(w', i)
    {
      assert InvOk(w, i);
    }
  }

  lemma ConnectInv(w: World, c: Client)
    requires Good(w) && c !in w.clients
    ensures Good(w.(clients := w.clients[c := NewClient()]))
  {
    assert Key(0);
    var w' := w.(clients := w.clients[c := NewClient()]);
    ConnectTables(w, c);
    GamesFrame(w, w');
    forall d | d in w'.clients
      ensures PlayerOk(w', d)
    {
      assert d != c ==> PlayerOk(w, d);
    }
  }

  /** The registry forgets a client; it is freed unless an invitation still refers to it. */
  lemma DisconnectInv(w: World, c: Client)
    requires Good(w) && c in w.clients
    ensures Good(Disconnect(w, c))
  {
    assert Key(0);
    var w' := Disconnect(w, c);
    forall d | d in w'.clients
      ensures Worlds.TableOk(w', d) && PlayerOk(w', d)
    {
      assert Worlds.TableOk(w, d) && PlayerOk(w, d);
      forall k | 0 <= k < CAP
        ensures SlotOk(w', d, k)
      {
        assert SlotOk(w, d, k);
      }
    }
    forall i | i in w'.invs
      ensures InvOk(w', i) && GameOk(w', i)
    {
      assert InvOk(w, i) && GameOk(w, i);
      OccupiedBounds(w.clients[c].slots, null);
    }
    assert Inv(w');
  }

  lemma EnrollInv(w: World, p: Player)
    requires Good(w) && p.id == |w.players| && Sendable(p.name)
    requires forall q :: q in w.players ==> q.name != p.name
    ensures Good(Enroll(w, p))
  {
    assert Key(0);
    var w' := Enroll(w, p);
    SumAppend(w.ratings, INITIAL_RATING);
    TablesFrame(w, w');
    GamesFrame(w, w');
    forall c | c in w'.clients
      ensures PlayerOk(w', c)
    {
      assert PlayerOk(w, c);
    }
    forall k | 0 <= k < |w'.players|
      ensures w'.players[k].id == k
    {
    }
    assert Inv(w');
  }

  lemma LoginInv(w: World, c: Client, p: Player)
    requires Good(w) && c in w.clients && p in w.players
    ensures Good(Login(w, c, p).0)
  {
    assert Key(0);
    var w' := Login(w, c, p).0;
    forall d | d in w'.clients
      ensures Worlds.TableOk(w', d) && PlayerOk(w', d)
    {
      assert Worlds.TableOk(w, d) && PlayerOk(w, d);
      forall k | 0 <= k < CAP
        ensures SlotOk(w', d, k)
      {
        assert SlotOk(w, d, k);
      }
    }
    forall i | i in w'.invs
      ensures InvOk(w', i) && GameOk(w', i)
    {
      assert InvOk(w, i) && GameOk(w, i);
    }
    assert Inv(w');
  }

  /** A client whose table is empty may log out: no invitation names it. */
  lemma LeaveInv(w: World, c: Client)
    requires Good(w) && c in w.clients && Occupied(w.clients[c].slots, null) == 0
    ensures Good(Leave(w, c))
  {
    assert Key(0);
    var w' := Leave(w, c);
    OccupiedBounds(w.clients[c].slots, null);
    forall d | d in w'.clients
      ensures Worlds.TableOk(w', d) && PlayerOk(w', d)
    {
      assert Worlds.TableOk(w, d) && PlayerOk(w, d);
      forall k | 0 <= k < CAP
        ensures SlotOk(w', d, k)
      {
        assert SlotOk(w, d, k);
      }
    }
    forall i | i in w'.invs
      ensures InvOk(w', i) && GameOk(w', i)
    {
      assert InvOk(w, i) && GameOk(w, i);
    }
    assert Inv(w');
  }
}
