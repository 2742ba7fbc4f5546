/**
 The operations of src/client.c as sequences of calls on the objects they touch.  Their contracts are
 local: what they need of one invitation and its two parties, and what they leave.  Module Server
 places them in the whole state.
 */
module Operations {
  import opened Roles
  import opened Sealing
  import opened TicTacToe
  import opened Games
  import opened Elo
  import opened Players
  import opened Lobby
  import opened Registry

  datatype Kind =
    | AckPkt | NackPkt | InvitedPkt | RevokedPkt | AcceptedPkt | DeclinedPkt | MovedPkt | ResignedPkt | EndedPkt

  /** What a payload says; `Spells` gives its text.  A piece is what is left of a text that is too long. */
  datatype Payload =
    | Nothing | Name(name: string) | Position(cells: seq<Mark>, turn: Role) | Listing(lines: seq<Line>)
    | Piece(text: string)

  /** One line of the list of users. */
  datatype Line = Line(name: string, rating: int)

  function Decimal(n: int): string
    decreases if n < 0 then 1 - n else n
  {
    if n < 0 then "-" + Decimal(-n)
    else if n < 10 then ['0' + n as char]
    else Decimal(n / 10) + ['0' + (n % 10) as char]
  }

  /** The text of the list: name, tab, rating, one user a line. */
  function ListingText(lines: seq<Line>): string {
    if lines == [] then ""
    else
      var last := lines[|lines| - 1];
      ListingText(lines[..|lines| - 1]) + last.name + "\t" + Decimal(last.rating) + "\n"
  }

  lemma ListingNext(lines: seq<Line>, k: nat)
    requires k < |lines|
    ensures ListingText(lines[..k + 1]) == ListingText(lines[..k]) + lines[k].name + "\t" + Decimal(lines[k].rating)
      + "\n"
  {
    assert lines[..k + 1][..k] == lines[..k];
  }

  ghost predicate Spells(p: Payload, text: string) {
    match p
    case Nothing => text == ""
    case Name(name) => text == name
    case Position(cells, turn) => |cells| == 9 && text == Render(cells, turn)
    case Listing(lines) => text == ListingText(lines)
    case Piece(t) => text == t
  }

  /** The size field of a header has sixteen bits. */
  const SIZE_LIMIT := 0x1_0000

  predicate Sendable(text: string) {
    |text| < SIZE_LIMIT
  }

  /** What goes out of a text: as many characters as the size field says. */
  function Cut(text: string): (r: string)
    ensures r <= text && (r == text <==> Sendable(text)) && Sendable(r)
  {
    text[..|text| % SIZE_LIMIT]
  }

  /** What a packet carries of a payload: all of it, if its size fits the header. */
  function Carried(p: Payload): Payload {
    match p
    case Nothing => p
    case Name(name) => if Sendable(name) then p else Piece(Cut(name))
    case Position(_, _) => p
    case Listing(lines) => if Sendable(ListingText(lines)) then p else Piece(Cut(ListingText(lines)))
    case Piece(text) => Piece(Cut(text))
  }

  /** It is what is written to the socket, and the payload itself exactly when its text is short enough. */
  lemma CarriedIsCut(p: Payload, text: string)
    requires Spells(p, text)
    ensures Spells(Carried(p), Cut(text))
    ensures Carried(p) == p <==> Sendable(text)
  {
    if p.Position? {
      assert |text| == |Render(p.cells, p.turn)| == 40;
    }
  }

  /** One packet handed to the network: eight bits of id, and the payload as far as its size has sixteen. */
  datatype Packet = Packet(fd: int, kind: Kind, id: int, role: Role, payload: Payload, ok: bool)

  function ResultCode(r: Role): int {
    match r
    case NullRole => 0
    case First => 1
    case Second => 2
  }

  /**
   What every packet goes through: the header keeps eight bits of the id and sixteen of the size, which
   is how much of the data is written (src/protocol.c:42-44); the outcome is the network's.
   */
  method Send(to: Client, kind: Kind, id: int, role: Role, data: string, ghost payload: Payload)
    returns (status: int, ghost sent: Packet)
    requires to.alive && Spells(payload, data)
    ensures status == 0 || status == -1
    ensures sent == Packet(to.fd, kind, id % 256, role, Carried(payload), status == 0)
    ensures Spells(sent.payload, data[..|data| % SIZE_LIMIT])
  {
    var ok: bool := *;
    status := if ok then 0 else -1;
    CarriedIsCut(payload, data);
    sent := Packet(to.fd, kind, id % 256, role, Carried(payload), ok);
  }

  /** The client's table holds the invitation in slot k and nowhere else. */
  ghost predicate OnlyIn(c: Client, inv: Invitation, k: nat)
    reads c.lst
  {
    k < c.lst.Length && forall j :: 0 <= j < c.lst.Length ==> (c.lst[j] == inv <==> j == k)
  }

  /** One party of an invitation between operations: its table is in order, and its count exact. */
  ghost predicate PartyOk(c: Client)
    reads c, c.lst
  {
    c.alive && c.TableOk() && c.refCount == (if c.regSlot == -1 then 0 else 1) + c.len && c.len >= 1
  }

  /** An invitation between operations: in one slot of each party, counted for both, with a game once accepted. */
  ghost predicate Standing(i: Invitation)
    reads i, i.src, i.src.lst, i.target, i.target.lst, i.GameSet()
  {
    && i.alive && i.refCount == 2
    && i.src != i.target && i.src.lst != i.target.lst
    && PartyOk(i.src) && PartyOk(i.target)
    && OnlyIn(i.src, i, i.srcSlot) && OnlyIn(i.target, i, i.targetSlot)
    && i.state == (if i.game == null then Open else Accepted)
    && (i.game != null ==> i.game.alive && i.game.refCount == 1)
  }

  /** A player's rating may have changed, but nobody gained or lost a reference. */
  twostate predicate Held(p: Player?)
    reads p
  {
    p != null ==> p.alive == old(p.alive) && p.refCount == old(p.refCount)
  }

  /** The invitation has left both tables and is freed. */
  twostate predicate Gone(i: Invitation)
    reads i, i.src, i.src.lst, i.target, i.target.lst
  {
    i.src.Left(old(i.srcSlot)) && i.target.Left(old(i.targetSlot)) && !i.alive
  }

  /** The invitation is open, and the client its source (or its target). */
  ghost predicate OpenTo(client: Client, inv: Invitation, asSource: bool)
    reads inv
  {
    inv.game == null && client == if asSource then inv.src else inv.target
  }

  /**
   What revoke and decline have in common at first (src/client.c:356-366, 402-412): hold the
   invitation, check the party, close it; on any failure let go.
   */
  method CloseOpen(client: Client, inv: Invitation, asSource: bool) returns (ok: bool)
    requires Standing(inv)
    modifies inv`refCount, inv`state
    ensures ok <==> old(OpenTo(client, inv, asSource))
    ensures !ok ==> unchanged(inv)
    ensures ok ==> inv.state == Closed && inv.refCount == 3
  {
    inv.Ref();
    if client != if asSource then inv.GetSource() else inv.GetTarget() {
      inv.Unref();
      return false;
    }
    var closed := inv.Close(NullRole);
    if closed == -1 {
      inv.Unref();
      return false;
    }
    return true;
  }

  /**
   The sequence that revoke, decline and resign share (src/client.c:367-381, 414-431, 536-553,
   600-617): out of the caller's table, a reference to the other party, out of its table.  The
   caller holds a reference to the invitation, so both removals find it and neither frees it.
   */
  method LeaveTables(client: Client, other: Client, inv: Invitation, ghost mine: nat, ghost theirs: nat)
    returns (otherId: int)
    requires client.alive && other.alive && client != other && client.lst != other.lst
    requires client.TableOk() && other.TableOk()
    requires inv.alive && inv.refCount == 3 && inv.src != inv.target
    requires OnlyIn(client, inv, mine) && OnlyIn(other, inv, theirs)
    modifies client`len, client.lst, other`len, other.lst, other`refCount, inv`refCount
    ensures otherId == theirs
    ensures client.TableOk() && client.Changed(mine, null) && client.len == old(client.len) - 1
    ensures other.TableOk() && other.Changed(theirs, null) && other.len == old(other.len) - 1
    ensures inv.refCount == 1
    ensures other.refCount == old(other.refCount) + 1
  {
    assert client.lst[mine] == inv && other.lst[theirs] == inv;
    var removed := client.RemoveInvitation(inv);
    if removed == -1 {
      assert false;
    }
    other.Ref();
    otherId := other.RemoveInvitation(inv);
    if otherId == -1 {
      assert false;
    }
  }

  /** The rest of revoke and decline, once the invitation is closed (src/client.c:367-389, 414-439). */
  method FinishWithdraw(client: Client, other: Client, inv: Invitation, kind: Kind, ghost mine: nat, ghost theirs: nat)
    returns (r: int, ghost sent: Packet)
    requires client == (if inv.src == client then inv.src else inv.target) && other == OtherParty(inv, client)
      && client != other && client.lst != other.lst
    requires PartyOk(client) && PartyOk(other) && client.regSlot != -1
    requires OnlyIn(client, inv, mine) && OnlyIn(other, inv, theirs)
    requires inv.alive && inv.refCount == 3 && inv.game == null
    modifies client`len, client.lst, other`len, other.lst
    modifies inv`refCount, inv`alive, inv`game
    modifies client`refCount, client`alive, client`player, other`refCount, other`alive, other`player
    ensures client.Left(mine) && other.Left(theirs) && !inv.alive && inv.game == null
    ensures r == 0 || r == -1
    ensures sent == Packet(other.fd, kind, theirs % 256, NullRole, Nothing, r == 0)
  {
    var other_id := LeaveTables(client, other, inv, mine, theirs);
    inv.Unref();
    r, sent := Send(other, kind, other_id, NullRole, "", Nothing);
    other.Unref();
  }

  /**
   client_revoke_invitation (as source) and client_decline_invitation (as target), from the table
   entry on.  Every failure leaves all as it was; otherwise the invitation is gone and the other party
   has been sent its slot.
   */
  method WithdrawInvitation(client: Client, inv: Invitation, asSource: bool, ghost other: Client)
    returns (r: int, ghost sent: seq<Packet>)
    requires Standing(inv) && client in {inv.src, inv.target} && other == OtherParty(inv, client)
      && client.regSlot != -1
    modifies inv`refCount, inv`state, inv`alive, inv`game
    modifies client`len, client.lst, client`refCount, client`alive, client`player
    modifies other`len, other.lst, other`refCount, other`alive, other`player
    ensures !old(OpenTo(client, inv, asSource)) ==>
              r == -1 && sent == [] && unchanged(inv) && unchanged(client, client.lst) && unchanged(other, other.lst)
    ensures old(OpenTo(client, inv, asSource)) ==>
              && Gone(inv)
              && (r == 0 || r == -1)
              && sent == [if asSource
                          then Packet(inv.target.fd, RevokedPkt, inv.targetSlot % 256, NullRole, Nothing, r == 0)
                          else Packet(inv.src.fd, DeclinedPkt, inv.srcSlot % 256, NullRole, Nothing, r == 0)]
  {
    var ok := CloseOpen(client, inv, asSource);
    if !ok {
      return -1, [];
    }
    ghost var p;
    if asSource {
      r, p := FinishWithdraw(client, inv.GetTarget(), inv, RevokedPkt, inv.srcSlot, inv.targetSlot);
    } else {
      r, p := FinishWithdraw(client, inv.GetSource(), inv, DeclinedPkt, inv.targetSlot, inv.srcSlot);
    }
    sent := [p];
  }

  /** The first half of accept (src/client.c:452-462): hold, check the party, change the state. */
  method OpenGame(client: Client, inv: Invitation) returns (ok: bool)
    requires Standing(inv)
    modifies inv`refCount, inv`state, inv`game
    ensures ok <==> old(OpenTo(client, inv, false))
    ensures !ok ==> unchanged(inv)
    ensures ok ==> inv.alive && inv.refCount == 3 && inv.state == Accepted && NewGame(inv)
  {
    inv.Ref();
    if client != inv.GetTarget() {
      inv.Unref();
      return false;
    }
    var accepted := inv.Accept();
    if accepted == -1 {
      inv.Unref();
      return false;
    }
    return true;
  }

  /** The texts of accept (src/client.c:470-496): the opening position goes to whoever moves first. */
  method OpeningTexts(game: Game, srcRole: Role) returns (str_to_send: string, strp: Option<string>)
    requires game.alive && game.refCount >= 1 && game.Valid() && game.abs == Initial()
    modifies game`refCount, game`alive
    ensures game.alive && game.refCount == old(game.refCount)
    ensures var text := Render(Initial().cells, First);
            if srcRole == First then str_to_send == text && strp == None else str_to_send == "" && strp == Some(text)
  {
    str_to_send := "";
    strp := None;
    game.Ref();
    if srcRole == First {
      str_to_send := game.UnparseState();
      game.Unref();
    } else {
      var str := game.UnparseState();
      strp := Some(str);
      game.Unref();
    }
  }

  /** The second half of accept (src/client.c:463-514): tell the source. */
  method AnnounceGame(inv: Invitation, ghost slot: nat) returns (r: int, strp: Option<string>, ghost sent: Packet)
    requires inv.alive && inv.refCount == 3 && inv.game != null && inv.game.alive && inv.game.refCount >= 1
      && inv.game.Valid()
    requires inv.src != inv.target && inv.game.abs == Initial()
    requires PartyOk(inv.src) && OnlyIn(inv.src, inv, slot)
    modifies inv`refCount, inv.src`refCount, inv.game`refCount, inv.game`alive
    ensures inv.refCount == 2 && inv.src.refCount == old(inv.src.refCount)
    ensures inv.game.refCount == old(inv.game.refCount) && inv.game.alive && inv.game.Valid()
    ensures r == 0 || r == -1
    ensures var text := Render(Initial().cells, First);
            && strp == (if inv.srcRole == First then None else Some(text))
            && sent == Packet(inv.src.fd, AcceptedPkt, slot % 256, inv.srcRole,
                              if inv.srcRole == First then Position(Initial().cells, First) else Nothing, r == 0)
  {
    var client_src := inv.GetSource();
    client_src.Ref();
    var str_to_send;
    str_to_send, strp := OpeningTexts(inv.GetGame(), inv.GetSourceRole());
    assert client_src.lst[slot] == inv;
    var src_id := client_src.Search(inv);
    if src_id == -1 {
      assert false;
    }
    inv.Unref();
    r, sent := Send(client_src, AcceptedPkt, src_id, inv.GetSourceRole(), str_to_send,
                    if inv.srcRole == First then Position(Initial().cells, First) else Nothing);
    client_src.Unref();
  }

  /** The invitation has a game that did not exist before, at its first position. */
  twostate predicate NewGame(inv: Invitation)
    reads inv, inv.GameSet(), set g | g in inv.GameSet() :: g.board
  {
    && inv.game != null && fresh(inv.game) && fresh(inv.game.board)
    && inv.game.alive && inv.game.refCount == 1 && inv.game.Valid() && inv.game.abs == Initial()
  }

  /**
   client_accept_invitation.  Only the target of an open invitation succeeds: the invitation gets a new
   game, the source is told, and whoever moves first gets the opening position: the source in its
   packet, the accepter in `strp`.
   */
  method AcceptInvitation(client: Client, inv: Invitation)
    returns (r: int, strp: Option<string>, ghost sent: seq<Packet>)
    requires Standing(inv)
    modifies inv`refCount, inv`state, inv`game, inv.src`refCount
    ensures !old(OpenTo(client, inv, false)) ==>
              r == -1 && strp == None && sent == [] && unchanged(inv) && unchanged(inv.src)
    ensures old(OpenTo(client, inv, false)) ==>
              var text := Render(Initial().cells, First);
              && inv.alive && inv.refCount == 2 && inv.state == Accepted && NewGame(inv)
              && inv.src.refCount == old(inv.src.refCount)
              && (r == 0 || r == -1)
              && strp == (if inv.srcRole == First then None else Some(text))
              && sent == [Packet(inv.src.fd, AcceptedPkt, inv.srcSlot % 256, inv.srcRole,
                                 if inv.srcRole == First then Position(Initial().cells, First) else Nothing, r == 0)]
  {
    var ok := OpenGame(client, inv);
    if !ok {
      return -1, None, [];
    }
    ghost var p;
    r, strp, p := AnnounceGame(inv, inv.srcSlot);
    sent := [p];
    assert fresh(inv.game) && inv.game.refCount == 1 && inv.game.alive;
  }

  // ---------------------------------------------------------------- logging in

  /** client_login: refused when the client is logged in already, or a registered client is, under the name. */
  method LoginClient(creg: ClientRegistry, client: Client, player: Player, ghost found: Client?) returns (r: int)
    requires found == creg.Found(player.name) && creg.InUse()
    requires found != null ==> found.refCount >= 1
    requires client.alive && player.alive
    modifies client`player, player`refCount, found
    ensures r == if old(client.player) == null && found == null then 0 else -1
    ensures r == 0 ==> client.player == player && player.refCount == old(player.refCount) + 1
    ensures r == -1 ==> client.player == old(client.player) && player.refCount == old(player.refCount)
    ensures found != null ==> unchanged(found)
  {
    if client.GetPlayer() != null {
      return -1;
    }
    var lookup_cli := creg.Lookup(player.GetName());
    if lookup_cli != null {
      lookup_cli.Unref();
      return -1;
    }
    player.Ref();
    client.player := player;
    return 0;
  }

  // ---------------------------------------------------------------- inviting

  /** The least free slot of a table, before. */
  twostate predicate WasFirstFree(c: Client, k: int) {
    0 <= k < c.lst.Length && old(c.lst[k]) == null && forall j :: 0 <= j < k ==> old(c.lst[j]) != null
  }

  twostate predicate SameTable(c: Client)
    reads c.lst
  {
    forall k :: 0 <= k < c.lst.Length ==> c.lst[k] == old(c.lst[k])
  }

  /**
   The two insertions of make (src/client.c:320-331), with what the source does when one fails.  When
   only the target's table is full, the number of the slot taken and given back is returned.
   */
  method EnterTables(source: Client, target: Client, inv: Invitation) returns (src_id: int, dst_id: int)
    requires source != target && source.lst != target.lst
    requires source.alive && source.TableOk() && source.refCount >= 2 && target.alive && target.TableOk()
      && target.refCount >= 2
    requires inv.alive && inv.refCount == 1 && inv.game == null && inv.src == source && inv.target == target
    requires forall k :: 0 <= k < source.lst.Length ==> source.lst[k] != inv
    modifies source`len, source.lst, source`refCount, source`alive, source`player
    modifies target`len, target.lst, target`refCount, target`alive, target`player
    modifies inv`refCount, inv`alive, inv`game
    ensures source.alive && source.TableOk() && source.player == old(source.player)
    ensures target.alive && target.TableOk() && target.player == old(target.player)
    ensures src_id == -1 <==> old(source.len) == CAP
    ensures src_id != -1 ==> WasFirstFree(source, src_id) && src_id <= old(source.len)
    ensures dst_id == -1 <==> old(source.len) == CAP || old(target.len) == CAP
    ensures dst_id == -1 ==>
              && SameTable(source) && source.len == old(source.len) && source.refCount == old(source.refCount) - 1
              && SameTable(target) && target.len == old(target.len) && target.refCount == old(target.refCount) - 1
              && !inv.alive
    ensures dst_id != -1 ==>
              && WasFirstFree(target, dst_id) && dst_id <= old(target.len)
              && source.Changed(src_id, inv) && source.len == old(source.len) + 1
                   && source.refCount == old(source.refCount)
              && target.Changed(dst_id, inv) && target.len == old(target.len) + 1
                   && target.refCount == old(target.refCount)
              && inv.alive && inv.refCount == 2 && inv.game == null
  {
    src_id := source.AddInvitation(inv);
    if src_id == -1 {
      inv.Unref();
      return -1, -1;
    }
    dst_id := target.AddInvitation(inv);
    if dst_id == -1 {
      inv.Unref();
      var removed := source.RemoveInvitation(inv);
      return removed, -1;
    }
    inv.Unref();
  }

  /** No trace is left in a client whose table did not change. */
  twostate predicate Restored(c: Client)
    reads c, c.lst
  {
    && SameTable(c) && c.TableOk() && c.alive && c.len == old(c.len) && c.refCount == old(c.refCount)
    && c.player == old(c.player) && c.peak == old(c.peak) && c.regSlot == old(c.regSlot)
  }

  /** A client whose table gained the invitation in this slot, and one reference with it. */
  twostate predicate Gained(c: Client, k: int, new inv: Invitation)
    reads c, c.lst
  {
    && WasFirstFree(c, k) && c.Changed(k, inv) && c.TableOk() && c.alive
    && c.len == old(c.len) + 1 && c.refCount == old(c.refCount) + 1 && k <= old(c.len)
    && c.player == old(c.player) && c.regSlot == old(c.regSlot)
    && c.peak == if c.len > old(c.peak) then c.len else old(c.peak)
  }

  /** The arguments inv_create refuses. */
  predicate Uninvitable(source: Client, target: Client, sourceRole: Role, targetRole: Role) {
    source == target || sourceRole == NullRole || targetRole == NullRole
  }

  /** Telling the target (src/client.c:333-343). */
  method TellInvited(source: Client, target: Client, inv: Invitation, src_id: int, dst_id: int, ghost player: Player)
    returns (r: int, ghost sent: Packet)
    requires source.alive && target.alive && inv.alive
    requires source.player == player && player.alive && player.refCount >= 1
    modifies player`refCount
    ensures player.refCount == old(player.refCount)
    ensures sent == Packet(target.fd, InvitedPkt, dst_id % 256, inv.targetRole, Carried(Name(player.name)), sent.ok)
    ensures r == if sent.ok then src_id else -1
  {
    var player_src := source.GetPlayer();
    player_src.Ref();
    var status;
    status, sent := Send(target, InvitedPkt, dst_id, inv.GetTargetRole(), player_src.GetName(), Name(player.name));
    if status == -1 {
      player_src.Unref();
      return -1, sent;
    }
    player_src.Unref();
    return src_id, sent;
  }

  /**
   client_make_invitation.  With bad arguments or a full table nothing remains; otherwise a new
   invitation is in the least free slot of each table, and the target has been told.  `inv` is that
   invitation, or null.
   */
  method MakeInvitation(source: Client, target: Client, sourceRole: Role, targetRole: Role, ghost player: Player)
    returns (r: int, ghost inv: Invitation?, ghost sent: seq<Packet>)
    requires source.alive && source.TableOk() && source.refCount >= 1 && target.alive && target.TableOk()
      && target.refCount >= 1
    requires source != target ==> source.lst != target.lst
    requires source.player == player && player.alive && player.refCount >= 1
    modifies source`len, source.lst, source`refCount, source`alive, source`player, source`peak
    modifies target`len, target.lst, target`refCount, target`alive, target`player, target`peak
    modifies player`refCount
    ensures player.refCount == old(player.refCount)
    ensures inv == null <==>
      Uninvitable(source, target, sourceRole, targetRole) || old(source.len) == CAP || old(target.len) == CAP
    ensures inv == null ==>
              && Restored(source) && Restored(target) && sent == []
              && if Uninvitable(source, target, sourceRole, targetRole)
                   || old(source.len) == CAP then r == -1 else WasFirstFree(source, r)
    ensures inv != null ==>
              && fresh(inv) && inv.alive && inv.refCount == 2 && inv.state == Open && inv.game == null
              && inv.src == source && inv.target == target && inv.srcRole == sourceRole && inv.targetRole == targetRole
              && Gained(source, inv.srcSlot, inv) && Gained(target, inv.targetSlot, inv)
              && |sent| == 1 && sent
                   == [Packet(target.fd, InvitedPkt, inv.targetSlot % 256, targetRole, Carried(Name(player.name)),
                       sent[0].ok)]
              && r == if sent[0].ok then inv.srcSlot else -1
  {
    var new_inv := Invitation.Create(source, target, sourceRole, targetRole);
    inv := null;
    sent := [];
    if new_inv == null {
      return -1, null, [];
    }
    var src_id, dst_id := EnterTables(source, target, new_inv);
    if dst_id == -1 {
      return src_id, null, [];
    }
    source.peak := if source.len > source.peak then source.len else source.peak;
    target.peak := if target.len > target.peak then target.len else target.peak;
    new_inv.srcSlot, new_inv.targetSlot := src_id, dst_id;
    ghost var p;
    r, p := TellInvited(source, target, new_inv, src_id, dst_id, player);
    return r, new_inv, [p];
  }

  /** The roles that invite_handler derives from the role in the header (src/server.c:57-60). */
  function TargetRole(role: Role): Role {
    if role == First then First else Second
  }

  /**
   The body of invite_handler (src/server.c:51-62): look the user up, make the invitation, let the user
   go.  `target` names the user's client, or is null.
   */
  method InviteUser(creg: ClientRegistry, source: Client, name: string, role: Role,
                    ghost target: Client?, ghost table: array?<Invitation?>, ghost player: Player)
    returns (r: int, ghost inv: Invitation?, ghost sent: seq<Packet>)
    requires target == creg.Found(name) && creg.InUse()
    requires source.alive && source.TableOk() && source.refCount >= 1 && source.player == player && player.alive
      && player.refCount >= 1
    requires target != null ==>
      target.alive && target.TableOk() && target.refCount >= 1 && (source != target ==> source.lst != target.lst)
    requires table == if target == null then null else target.lst
    modifies source`len, source.lst, source`refCount, source`alive, source`player, source`peak
    modifies target, table, player`refCount
    ensures player.refCount == old(player.refCount)
    ensures target == null ==> r == -1 && inv == null && sent == [] && unchanged(source, source.lst)
    ensures target != null ==> (inv == null <==> source == target || old(source.len) == CAP || old(target.len) == CAP)
    ensures target != null && inv == null ==>
              && Restored(source) && Restored(target) && sent == []
              && if source == target || old(source.len) == CAP then r == -1 else WasFirstFree(source, r)
    ensures target != null && inv != null ==>
              && fresh(inv) && inv.alive && inv.refCount == 2 && inv.state == Open && inv.game == null
              && inv.src == source && inv.target == target && inv.srcRole == Opponent(TargetRole(role))
                   && inv.targetRole == TargetRole(role)
              && Gained(source, inv.srcSlot, inv) && Gained(target, inv.targetSlot, inv)
              && |sent| == 1 && sent
                   == [Packet(target.fd, InvitedPkt, inv.targetSlot % 256, TargetRole(role), Carried(Name(player.name)),
                       sent[0].ok)]
              && r == if sent[0].ok then inv.srcSlot else -1
  {
    var client := creg.Lookup(name);
    if client == null {
      return -1, null, [];
    }
    var target_role := if role == First then First else Second;
    var src_role := if target_role == First then Second else First;
    r, inv, sent := MakeInvitation(source, client, src_role, target_role, player);
    client.Unref();
  }

  // ---------------------------------------------------------------- ending a game

  /** The invitation's game is running. */
  ghost predicate Playing(inv: Invitation)
    reads inv, inv.GameSet()
  {
    inv.game != null && !inv.game.abs.over
  }

  function RoleOf(inv: Invitation, client: Client): Role {
    if inv.src == client then inv.srcRole else inv.targetRole
  }

  function OtherParty(inv: Invitation, client: Client): Client {
    if inv.src == client then inv.target else inv.src
  }

  /** The two different players of an invitation, FIRST role first. */
  ghost predicate Opponents(inv: Invitation, first: Player, second: Player)
    reads inv.src, inv.target
  {
    && inv.srcRole != inv.targetRole && first != second
    && inv.src.player == (if inv.srcRole == First then first else second)
    && inv.target.player == (if inv.srcRole == First then second else first)
  }

  /**
   The result of a finished game goes to player_post_result with the FIRST-role player first
   (src/client.c:577-587, 642-652, 777-787).
   */
  method PostGameResult(inv: Invitation, winner: Role, pow10: real -> real, ghost first: Player, ghost second: Player)
    returns (ghost posted: int)
    requires IsPower(pow10) && Opponents(inv, first, second)
    requires inv.alive && inv.src.alive && inv.target.alive && first.alive && second.alive
    modifies first`rating, second`rating
    ensures posted == ResultCode(winner)
    ensures Rated(pow10, old(first.rating), old(second.rating), ResultCode(winner), first.rating, second.rating)
  {
    var p1, p2;
    if inv.GetSourceRole() == First {
      p1, p2 := inv.GetSource().GetPlayer(), inv.GetTarget().GetPlayer();
    } else {
      p1, p2 := inv.GetTarget().GetPlayer(), inv.GetSource().GetPlayer();
    }
    var code := match winner case NullRole => 0 case First => 1 case Second => 2;
    PostResult(p1, p2, code, pow10);
    posted := code;
  }

  /** The guards of resign (src/client.c:528-535, 595-599): a party resigns a running game, or nothing happens. */
  method CloseGame(client: Client, inv: Invitation) returns (ok: bool)
    requires Standing(inv) && client in {inv.src, inv.target} && inv.srcRole != NullRole && inv.targetRole != NullRole
    requires inv.game != null ==> inv.game.Valid()
    modifies inv`refCount, inv`state, inv.GameSet()`terminated, inv.GameSet()`winner, inv.GameSet()`abs
    ensures ok <==> old(Playing(inv))
    ensures !ok ==> unchanged(inv) && (inv.game != null ==> unchanged(inv.game))
    ensures ok ==>
              && inv.refCount == 3 && inv.state == Closed
              && inv.game.Valid() && inv.game.abs == Concede(old(inv.game.abs), RoleOf(inv, client))
  {
    inv.Ref();
    var closed := inv.Close(if inv.GetSource() == client then inv.GetSourceRole() else inv.GetTargetRole());
    if closed == -1 {
      inv.Unref();
      return false;
    }
    return true;
  }

  /** The packets of a resignation (src/client.c:554-575, 618-640). */
  method TellResigned(client: Client, other: Client, id: int, otherId: int, winner: Role)
    returns (status: int, ghost sent: seq<Packet>)
    requires client.alive && other.alive
    ensures |sent| == 3 && status == if sent[2].ok then 0 else -1
    ensures sent == [Packet(other.fd, ResignedPkt, otherId % 256, NullRole, Nothing, sent[0].ok),
                     Packet(client.fd, EndedPkt, id % 256, winner, Nothing, sent[1].ok),
                     Packet(other.fd, EndedPkt, otherId % 256, winner, Nothing, sent[2].ok)]
  {
    ghost var p, q, r;
    status, p := Send(other, ResignedPkt, otherId, NullRole, "", Nothing);
    status, q := Send(client, EndedPkt, id, winner, "", Nothing);
    status, r := Send(other, EndedPkt, otherId, winner, "", Nothing);
    sent := [p, q, r];
  }

  /** The last references go: the other party's temporary one, then the invitation's, which frees it. */
  method Release(client: Client, other: Client, inv: Invitation)
    requires inv.src != inv.target && client != other && client in {inv.src, inv.target}
      && other in {inv.src, inv.target}
    requires inv.alive && inv.refCount == 1 && (inv.game != null ==> inv.game.alive && inv.game.refCount >= 1)
    requires client.alive && client.refCount >= 2
    requires other.alive && other.refCount >= 2 && (other.refCount == 2 ==> other.TableOk() && other.len == 0)
    modifies inv`refCount, inv`alive, inv`game, inv.GameSet()`refCount, inv.GameSet()`alive
    modifies client`refCount, client`alive, client`player, other`refCount, other`alive, other`player
    ensures !inv.alive
    ensures old(inv.game) != null ==> old(inv.game).refCount == old(inv.game.refCount) - 1
    ensures old(inv.game) != null ==> (old(inv.game).alive <==> old(inv.game).refCount > 0)
    ensures client.refCount == old(client.refCount) - 1 && client.alive && client.player == old(client.player)
    ensures other.refCount == old(other.refCount) - 2 && (other.alive <==> other.refCount > 0)
    ensures other.player == if other.refCount == 0 then null else old(other.player)
  {
    other.Unref();
    inv.Unref();
  }

  /** The rest of resign, for either party (src/client.c:536-592, 600-656). */
  method FinishResign(client: Client, other: Client, id: nat, inv: Invitation, pow10: real -> real,
                      ghost theirs: nat, ghost first: Player, ghost second: Player)
    returns (status: int, ghost sent: seq<Packet>, ghost posted: int)
    requires client == (if inv.src == client then inv.src else inv.target) && other == OtherParty(inv, client)
      && client != other && client.lst != other.lst
    requires PartyOk(client) && PartyOk(other) && client.regSlot != -1
    requires OnlyIn(client, inv, id) && OnlyIn(other, inv, theirs)
    requires inv.alive && inv.refCount == 3 && inv.game != null && inv.game.alive && inv.game.refCount == 1
    requires IsPower(pow10) && Opponents(inv, first, second) && first.alive && second.alive
    modifies client`len, client.lst, other`len, other.lst
    modifies inv`refCount, inv`alive, inv`game, inv.game`refCount, inv.game`alive
    modifies client`refCount, client`alive, client`player, other`refCount, other`alive, other`player
    modifies first`rating, second`rating
    ensures client.Left(id) && other.Left(theirs) && !inv.alive && !old(inv.game).alive
    ensures |sent| == 3 && status == if sent[2].ok then 0 else -1
    ensures var winner := old(inv.game.winner);
            && sent == [Packet(other.fd, ResignedPkt, theirs % 256, NullRole, Nothing, sent[0].ok),
                        Packet(client.fd, EndedPkt, id % 256, winner, Nothing, sent[1].ok),
                        Packet(other.fd, EndedPkt, theirs % 256, winner, Nothing, sent[2].ok)]
            && posted == ResultCode(winner)
            && Rated(pow10, old(first.rating), old(second.rating), ResultCode(winner), first.rating, second.rating)
  {
    var other_id := LeaveTables(client, other, inv, id, theirs);
    var winner := inv.GetGame().GetWinner();
    status, sent := TellResigned(client, other, id, other_id, winner);
    posted := PostGameResult(inv, winner, pow10, first, second);
    Release(client, other, inv);
  }

  ghost function SlotOf(inv: Invitation, client: Client): nat
    reads inv
  {
    if inv.src == client then inv.srcSlot else inv.targetSlot
  }

  /**
   client_resign_game, by either party.  Without a running game nothing happens.  Otherwise the opponent
   wins; three packets go out, the invitation is gone, and the result is posted.
   `other`, `first` and `second` name the opponent and the two players.
   */
  method ResignGame(client: Client, inv: Invitation, id: nat, pow10: real -> real, ghost other: Client,
                    ghost first: Player, ghost second: Player)
    returns (r: int, ghost sent: seq<Packet>, ghost posted: seq<int>)
    requires Standing(inv) && client in {inv.src, inv.target} && other == OtherParty(inv, client)
      && client.regSlot != -1
    requires SlotOf(inv, client) == id
    requires IsPower(pow10) && inv.srcRole != NullRole && inv.targetRole != NullRole
    requires Opponents(inv, first, second) && first.alive && second.alive
    requires inv.game != null ==> inv.game.Valid()
    modifies inv`refCount, inv`state, inv`alive, inv`game
    modifies client`len, client.lst, client`refCount, client`alive, client`player
    modifies other`len, other.lst, other`refCount, other`alive, other`player
    modifies inv.game, first`rating, second`rating
    ensures !old(Playing(inv)) ==>
              && r == -1 && sent == [] && posted == []
              && unchanged(inv) && unchanged(client, client.lst) && unchanged(other, other.lst)
                   && unchanged(first, second)
              && (inv.game != null ==> unchanged(inv.game))
    ensures old(Playing(inv)) ==>
              var winner := Concede(old(inv.game.abs), RoleOf(inv, client)).winner;
              && Gone(inv) && !old(inv.game).alive
              && |sent| == 3 && r == (if sent[2].ok then 0 else -1)
              && sent == [Packet(other.fd, ResignedPkt, SlotOf(inv, other) % 256, NullRole, Nothing, sent[0].ok),
                          Packet(client.fd, EndedPkt, id % 256, winner, Nothing, sent[1].ok),
                          Packet(other.fd, EndedPkt, SlotOf(inv, other) % 256, winner, Nothing, sent[2].ok)]
              && posted == [ResultCode(winner)]
              && Rated(pow10, old(first.rating), old(second.rating), ResultCode(winner), first.rating, second.rating)
  {
    var ok := CloseGame(client, inv);
    if !ok {
      return -1, [], [];
    }
    var opponent := if inv.GetSource() == client then inv.GetTarget() else inv.GetSource();
    ghost var p;
    r, sent, p := FinishResign(client, opponent, id, inv, pow10, SlotOf(inv, other), first, second);
    posted := [p];
  }

  // ---------------------------------------------------------------- moving

  /** The move that a string stands for, if the game accepts it from this role. */
  ghost function MoveIn(g: Ttt, role: Role, move: string): Option<GameMove> {
    var m := ParsedMove(g.turn, role, move);
    if m.Some? && |g.cells| == 9 && Legal(g, role, m.value.num - 1) then m else None
  }

  ghost function MovedIn(game: Game, role: Role, move: string): set<Game>
    reads game
  {
    if MoveIn(game.abs, role, move) == None then {} else {game}
  }

  /** Hold the game, parse the string for the client's role, apply it; let go when it is refused. */
  method PlayIn(client: Client, inv: Invitation, game: Game, move: string) returns (played: bool)
    requires inv.alive && inv.src != inv.target && client in {inv.src, inv.target}
    requires game.alive && game.refCount == 1 && game.Valid()
    modifies game`refCount
    modifies MovedIn(game, RoleOf(inv, client), move)`curTurn, MovedIn(game, RoleOf(inv, client), move)`terminated
    modifies MovedIn(game, RoleOf(inv, client), move)`winner, MovedIn(game, RoleOf(inv, client), move)`abs
    modifies if MovedIn(game, RoleOf(inv, client), move) == {} then {} else {game.board}
    ensures played <==> old(MoveIn(game.abs, RoleOf(inv, client), move)).Some?
    ensures !played ==> game.refCount == 1
    ensures played ==> game.refCount == 2 && game.Valid()
                       && game.abs == Play(old(game.abs), RoleOf(inv, client),
                            old(MoveIn(game.abs, RoleOf(inv, client), move)).value.num - 1)
  {
    game.Ref();
    var gr := NullRole;
    if inv.GetSource() == client {
      gr := inv.GetSourceRole();
    }
    if inv.GetTarget() == client {
      gr := inv.GetTargetRole();
    }
    var gm := game.ParseMove(gr, move);
    if gm == None {
      game.Unref();
      return false;
    }
    var applied := game.ApplyMove(gm.value);
    if applied == -1 {
      game.Unref();
      return false;
    }
    return true;
  }

  /** The move a client's string stands for in the invitation's game, if it is accepted. */
  ghost function AcceptedMove(client: Client, inv: Invitation, move: string): Option<GameMove>
    reads inv, inv.GameSet()
  {
    if inv.game == null then None else MoveIn(inv.game.abs, RoleOf(inv, client), move)
  }

  /** The guards of make-move (src/client.c:677-720): the move is parsed and applied, or nothing happens. */
  method ApplyTurn(client: Client, inv: Invitation, move: string, ghost board: array2?<char>) returns (ok: bool)
    requires Standing(inv) && client in {inv.src, inv.target}
    requires if inv.game == null then board == null else inv.game.Valid() && board == inv.game.board
    modifies inv`refCount, inv.game, board
    ensures ok <==> old(AcceptedMove(client, inv, move)).Some?
    ensures !ok ==> unchanged(inv) && (inv.game != null ==> unchanged(inv.game) && unchanged(inv.game.board))
    ensures ok ==>
              && inv.refCount == 3 && inv.game.refCount == 2 && inv.game.alive && inv.game.Valid()
              && inv.game.abs == Play(old(inv.game.abs), RoleOf(inv, client),
                   old(AcceptedMove(client, inv, move)).value.num - 1)
  {
    inv.Ref();
    var game := inv.GetGame();
    if game == null {
      inv.Unref();
      return false;
    }
    ok := PlayIn(client, inv, game, move);
    if !ok {
      inv.Unref();
    }
  }

  /** The opponent is held and told (src/client.c:722-753). */
  method TellMoved(other: Client, inv: Invitation, ghost slot: nat) returns (inv_id: int, ghost sent: Packet)
    requires PartyOk(other) && OnlyIn(other, inv, slot)
    requires inv.alive && inv.game != null && inv.game.alive && inv.game.Valid()
    modifies other`refCount
    ensures other.refCount == old(other.refCount) + 1
    ensures inv_id == slot
    ensures sent == Packet(other.fd, MovedPkt, slot % 256, NullRole, Position(inv.game.abs.cells, inv.game.abs.turn),
      sent.ok)
  {
    other.Ref();
    assert other.lst[slot] == inv;
    inv_id := other.Search(inv);
    if inv_id == -1 {
      assert false;
    }
    var cur_game_state := inv.GetGame().UnparseState();
    var status;
    status, sent := Send(other, MovedPkt, inv_id, NullRole, cur_game_state,
        Position(inv.game.abs.cells, inv.game.abs.turn));
  }

  /** Both players are held while the result is posted (src/client.c:777-789). */
  method PostMoveResult(client: Client, other: Client, inv: Invitation, winner: Role, pow10: real -> real,
                        ghost first: Player, ghost second: Player) returns (ghost posted: int)
    requires IsPower(pow10) && Opponents(inv, first, second)
    requires inv.src != inv.target && client in {inv.src, inv.target} && other == OtherParty(inv, client)
    requires inv.srcRole != NullRole && inv.targetRole != NullRole
    requires inv.alive && client.alive && other.alive
    requires first.alive && second.alive && first.refCount >= 1 && second.refCount >= 1
    modifies first`rating, second`rating, first`refCount, second`refCount
    ensures first.refCount == old(first.refCount) && second.refCount == old(second.refCount)
    ensures first.alive && second.alive
    ensures posted == ResultCode(winner)
    ensures Rated(pow10, old(first.rating), old(second.rating), ResultCode(winner), first.rating, second.rating)
  {
    var client_player := client.GetPlayer();
    client_player.Ref();
    var client_opponent_player := other.GetPlayer();
    client_opponent_player.Ref();
    posted := PostGameResult(inv, winner, pow10, first, second);
    client_player.Unref();
    client_opponent_player.Unref();
  }

  /** The last references of a finished move go: invitation, opponent, game. */
  method ReleaseMove(client: Client, other: Client, inv: Invitation, game: Game)
    requires inv.src != inv.target && client != other && client in {inv.src, inv.target}
      && other in {inv.src, inv.target}
    requires inv.alive && inv.refCount == 1 && inv.game == game && game.alive && game.refCount == 2
    requires client.alive && client.refCount >= 2
    requires other.alive && other.refCount >= 2 && (other.refCount == 2 ==> other.TableOk() && other.len == 0)
    modifies inv`refCount, inv`alive, inv`game, game`refCount, game`alive
    modifies client`refCount, client`alive, client`player, other`refCount, other`alive, other`player
    ensures !inv.alive && !game.alive
    ensures client.refCount == old(client.refCount) - 1 && client.alive && client.player == old(client.player)
    ensures other.refCount == old(other.refCount) - 2 && (other.alive <==> other.refCount > 0)
    ensures other.player == if other.refCount == 0 then null else old(other.player)
  {
    inv.Unref();
    other.Unref();
    game.Unref();
  }

  /** Both tables give the invitation up (src/client.c:774-775). */
  method LeaveBoth(client: Client, other: Client, inv: Invitation, ghost mine: nat, ghost theirs: nat)
    requires client.alive && other.alive && client != other && client.lst != other.lst
    requires client.TableOk() && other.TableOk()
    requires inv.alive && inv.refCount == 3 && inv.src != inv.target
    requires OnlyIn(client, inv, mine) && OnlyIn(other, inv, theirs)
    modifies client`len, client.lst, other`len, other.lst, inv`refCount
    ensures client.TableOk() && client.Changed(mine, null) && client.len == old(client.len) - 1
    ensures other.TableOk() && other.Changed(theirs, null) && other.len == old(other.len) - 1
    ensures inv.refCount == 1
  {
    assert client.lst[mine] == inv && other.lst[theirs] == inv;
    var removed := client.RemoveInvitation(inv);
    removed := other.RemoveInvitation(inv);
  }

  /** A move that ends the game (src/client.c:756-793). */
  method EndMove(client: Client, other: Client, id: nat, otherId: int, inv: Invitation, game: Game, pow10: real -> real,
                 ghost first: Player, ghost second: Player)
    returns (ghost sent: seq<Packet>, ghost posted: int)
    requires inv.src != inv.target && client in {inv.src, inv.target} && other == OtherParty(inv, client)
      && client.lst != other.lst
    requires client.alive && client.TableOk() && client.regSlot != -1 && client.len >= 1
      && client.refCount == 1 + client.len
    requires other.alive && other.TableOk() && other.len >= 1
      && other.refCount == (if other.regSlot == -1 then 0 else 1) + other.len + 1
    requires OnlyIn(client, inv, id) && otherId >= 0 && OnlyIn(other, inv, otherId)
    requires inv.alive && inv.refCount == 3 && inv.game == game && game.alive && game.refCount == 2
    requires IsPower(pow10) && Opponents(inv, first, second) && inv.srcRole != NullRole && inv.targetRole != NullRole
    requires first.alive && second.alive && first.refCount >= 1 && second.refCount >= 1
    modifies client`len, client.lst, other`len, other.lst
    modifies inv`refCount, inv`alive, inv`game, game`refCount, game`alive
    modifies client`refCount, client`alive, client`player, other`refCount, other`alive, other`player
    modifies first`rating, second`rating, first`refCount, second`refCount
    ensures client.Left(id) && !inv.alive && !game.alive
    ensures other.Changed(otherId, null) && other.len == old(other.len) - 1 && other.peak == old(other.peak)
      && other.regSlot == old(other.regSlot)
    ensures other.Released(old(other.refCount) - 1, old(other.player))
    ensures first.refCount == old(first.refCount) && second.refCount == old(second.refCount)
    ensures var winner := old(game.winner);
            && |sent| == 2
            && sent == [Packet(client.fd, EndedPkt, id % 256, winner, Nothing, sent[0].ok),
                 Packet(other.fd, EndedPkt, otherId % 256, winner, Nothing, sent[1].ok)]
            && posted == ResultCode(winner)
            && Rated(pow10, old(first.rating), old(second.rating), ResultCode(winner), first.rating, second.rating)
  {
    var winner := game.GetWinner();
    var status;
    ghost var p, q;
    status, p := Send(client, EndedPkt, id, winner, "", Nothing);
    status, q := Send(other, EndedPkt, otherId, winner, "", Nothing);
    sent := [p, q];
    LeaveBoth(client, other, inv, id, otherId);
    posted := PostMoveResult(client, other, inv, winner, pow10, first, second);
    ReleaseMove(client, other, inv, game);
  }

  /** The packet a move sends to the opponent. */
  function MovedPacket(other: Client, slot: nat, g: Ttt, ok: bool): Packet
  {
    Packet(other.fd, MovedPkt, slot % 256, NullRole, Position(g.cells, g.turn), ok)
  }

  /** What follows an applied move (src/client.c:722-795): the opponent is told, and a finished game is ended. */
  method FinishMove(client: Client, other: Client, id: nat, inv: Invitation, game: Game, pow10: real -> real,
                    ghost theirs: nat, ghost first: Player, ghost second: Player)
    returns (ghost sent: seq<Packet>, ghost posted: seq<int>)
    requires inv.src != inv.target && client in {inv.src, inv.target} && other == OtherParty(inv, client)
      && client.lst != other.lst
    requires PartyOk(client) && PartyOk(other) && client.regSlot != -1
    requires OnlyIn(client, inv, id) && OnlyIn(other, inv, theirs)
    requires inv.alive && inv.refCount == 3 && inv.game == game && game.alive && game.refCount == 2 && game.Valid()
    requires IsPower(pow10) && Opponents(inv, first, second) && inv.srcRole != NullRole && inv.targetRole != NullRole
    requires first.alive && second.alive && first.refCount >= 1 && second.refCount >= 1
    modifies client`len, client.lst, other`len, other.lst
    modifies inv`refCount, inv`alive, inv`game, game`refCount, game`alive
    modifies client`refCount, client`alive, client`player, other`refCount, other`alive, other`player
    modifies first`rating, second`rating, first`refCount, second`refCount
    ensures first.refCount == old(first.refCount) && second.refCount == old(second.refCount)
    ensures !game.abs.over ==>
              && unchanged(client, client.lst) && unchanged(other, other.lst) && unchanged(first, second)
              && inv.alive && inv.refCount == 2 && inv.game == game && game.alive && game.refCount == 1
              && |sent| == 1 && sent == [MovedPacket(other, theirs, game.abs, sent[0].ok)] && posted == []
    ensures game.abs.over ==>
              && client.Left(id) && other.Left(theirs) && !inv.alive && !game.alive
              && |sent| == 3
              && sent == [MovedPacket(other, theirs, game.abs, sent[0].ok),
                          Packet(client.fd, EndedPkt, id % 256, game.abs.winner, Nothing, sent[1].ok),
                          Packet(other.fd, EndedPkt, theirs % 256, game.abs.winner, Nothing, sent[2].ok)]
              && posted == [ResultCode(game.abs.winner)]
              && Rated(pow10, old(first.rating), old(second.rating), ResultCode(game.abs.winner), first.rating,
                   second.rating)
  {
    var inv_id;
    ghost var p;
    inv_id, p := TellMoved(other, inv, theirs);
    if game.IsOver() {
      ghost var ended, code;
      ended, code := EndMove(client, other, id, inv_id, inv, game, pow10, first, second);
      sent, posted := [p] + ended, [code];
    } else {
      inv.Unref();
      other.Unref();
      game.Unref();
      sent, posted := [p], [];
    }
  }

  /** The invitation's game, if any, does not accept the move (kept folded). */
  ghost predicate Refuses(client: Client, inv: Invitation, move: string)
    reads inv, inv.GameSet()
  {
    forall k {:trigger MoveKey(k)} :: MoveKey(k) ==> AcceptedMove(client, inv, move).None?
  }

  /** The move was accepted, and g is the position it leads to (kept folded). */
  twostate predicate LeadsTo(client: Client, inv: Invitation, move: string, g: Ttt) {
    forall k {:trigger MoveKey(k)} :: MoveKey(k) ==>
                                    && old(inv.game) != null && |old(inv.game.abs.cells)| == 9
                                    && old(AcceptedMove(client, inv, move)).Some?
                                    && g == Play(old(inv.game.abs), RoleOf(inv, client),
                                         old(AcceptedMove(client, inv, move)).value.num - 1)
  }

  /**
   client_make_move.  A move that is refused changes nothing.  Otherwise it is played and the opponent
   told; if it ends the game both are told, the invitation is gone, and the result is posted.
   */
  method MakeMove(client: Client, inv: Invitation, id: nat, move: string, pow10: real -> real,
                  ghost other: Client, ghost first: Player, ghost second: Player, ghost board: array2?<char>)
    returns (r: int, ghost sent: seq<Packet>, ghost posted: seq<int>, ghost g: Ttt)
    requires Standing(inv) && client in {inv.src, inv.target} && other == OtherParty(inv, client)
      && client.regSlot != -1
    requires SlotOf(inv, client) == id
    requires if inv.game == null then board == null else inv.game.Valid() && board == inv.game.board
    requires IsPower(pow10) && Opponents(inv, first, second) && inv.srcRole != NullRole && inv.targetRole != NullRole
    requires first.alive && second.alive && first.refCount >= 1 && second.refCount >= 1
    modifies client`len, client.lst, client`refCount, client`alive, client`player
    modifies other`len, other.lst, other`refCount, other`alive, other`player
    modifies inv`refCount, inv`alive, inv`game, inv.game, board
    modifies first`rating, second`rating, first`refCount, second`refCount
    ensures first.refCount == old(first.refCount) && second.refCount == old(second.refCount)
    ensures r == 0 || r == -1
    ensures r == -1 ==>
              && Refuses(client, inv, move)
              && sent == [] && posted == []
              && unchanged(client, client.lst) && unchanged(other, other.lst) && unchanged(first, second)
                   && unchanged(inv)
              && (inv.game != null ==> unchanged(inv.game) && unchanged(inv.game.board))
    ensures r == 0 ==>
              var theirs := old(SlotOf(inv, other));
              old(inv.game) != null && LeadsTo(client, inv, move, g) &&
              if g.over then
                && Gone(inv) && !old(inv.game).alive
                && |sent| == 3
                && sent == [MovedPacket(other, theirs, g, sent[0].ok),
                            Packet(client.fd, EndedPkt, id % 256, g.winner, Nothing, sent[1].ok),
                            Packet(other.fd, EndedPkt, theirs % 256, g.winner, Nothing, sent[2].ok)]
                && posted == [ResultCode(g.winner)]
                && Rated(pow10, old(first.rating), old(second.rating), ResultCode(g.winner), first.rating,
                     second.rating)
              else
                && unchanged(client, client.lst) && unchanged(other, other.lst) && unchanged(first, second)
                && inv.alive && inv.refCount == 2 && inv.game != null && inv.game == old(inv.game)
                && inv.game.alive && inv.game.refCount == 1 && inv.game.Valid() && inv.game.abs == g
                && |sent| == 1 && sent == [MovedPacket(other, theirs, g, sent[0].ok)] && posted == []
  {
    var ok := ApplyTurn(client, inv, move, board);
    if !ok {
      assert Refuses(client, inv, move) by {
        assert MoveKey(0);
      }
      return -1, [], [], Initial();
    }
    var game := inv.GetGame();
    g := game.abs;
    assert LeadsTo(client, inv, move, g) by {
      assert MoveKey(0);
    }
    var opponent := if inv.GetSource() == client then inv.GetTarget() else inv.GetSource();
    sent, posted := FinishMove(client, opponent, id, inv, game, pow10, SlotOf(inv, other), first, second);
    r := 0;
  }
}
