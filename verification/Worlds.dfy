/**
 The server's shared state as a value, and each client operation as a function on it.

 This is the specification of module Server: there, the methods that walk arrays, count references
 and return early are proved to compute exactly these functions.  Here, what every operation keeps is
 proved about the functions, for all sequences of operations and all outcomes of the transmissions.

 Objects serve as their own names: only their constant fields are looked at.
 */
module Worlds {
  import opened Roles
  import opened Sealing
  import opened Slots
  import opened TicTacToe
  import opened Games
  import opened Elo
  import opened Players
  import opened Lobby
  import opened Operations

  /**
   What a notification is about: an invitation and the party it goes to; a slot, whether that party's
   table held the invitation there at the event, the party's peak number of invitations by then, and
   whether it was connected then.
   */
  datatype Subject = Subject(inv: Invitation, to: Client, slot: nat, held: bool, peak: nat, connected: bool)

  /** One call of player_post_result: the two players, the result code, and the invitation whose game ended. */
  datatype Posted = Posted(first: Player, second: Player, result: int, inv: Invitation)

  /** A packet in the history, with what it was about. */
  datatype Sent = Sent(packet: Packet, about: Option<Subject>)

  /** A client: its login, its slot table, its peak number of invitations, and whether it is in the registry. */
  datatype ClientV = ClientV(player: Player?, slots: seq<Invitation?>, peak: nat, registered: bool)

  /** An allocated invitation: its slots, and its game once accepted. */
  datatype InvV = InvV(srcSlot: nat, targetSlot: nat, game: Option<Ttt>)

  datatype World = World(
    clients: map<Client, ClientV>,
    invs: map<Invitation, InvV>,
    players: seq<Player>,
    ratings: seq<real>,
    log: seq<Sent>,
    posts: seq<Posted>)

  function Max(a: nat, b: nat): nat {
    if a > b then a else b
  }

  function SlotIn(v: InvV, i: Invitation, c: Client): nat {
    if i.src == c then v.srcSlot else v.targetSlot
  }

  // ---------------------------------------------------------------- what every state satisfies

  /** Slot k of c is the place where c's table holds the invitation. */
  ghost predicate Holds(w: World, c: Client, i: Invitation, k: nat) {
    i in w.invs && ((i.src == c && w.invs[i].srcSlot == k) || (i.target == c && w.invs[i].targetSlot == k))
  }

  /** What slot k of c's table holds is an invitation naming c by that slot; and its number is below the peak. */
  ghost predicate SlotOk(w: World, c: Client, k: nat)
    requires c in w.clients && k < |w.clients[c].slots|
  {
    var i := w.clients[c].slots[k];
    i != null ==> Holds(w, c, i, k) && k < w.clients[c].peak
  }

  ghost predicate TableOk(w: World, c: Client)
    requires c in w.clients
  {
    var v := w.clients[c];
    && |v.slots| == CAP
    && Occupied(v.slots, null) <= v.peak
    && (v.registered || Occupied(v.slots, null) > 0)
    && forall k {:trigger SlotOk(w, c, k)} :: 0 <= k < CAP ==> SlotOk(w, c, k)
  }

  predicate InSlot(w: World, c: Client, k: nat, i: Invitation) {
    c in w.clients && k < |w.clients[c].slots| && w.clients[c].slots[k] == i
  }

  /** A game that is there is a sound one, and still running. */
  ghost predicate GameOk(w: World, i: Invitation)
    requires i in w.invs
  {
    w.invs[i].game.Some? ==> Sound(w.invs[i].game.value) && !w.invs[i].game.value.over
  }

  /** An allocated invitation is live: in one slot of each party, between two different players, not over. */
  ghost predicate InvOk(w: World, i: Invitation)
    requires i in w.invs
  {
    && i.src != i.target
    && i.srcRole != NullRole && i.targetRole != NullRole && i.srcRole != i.targetRole
    && InSlot(w, i.src, w.invs[i].srcSlot, i)
    && InSlot(w, i.target, w.invs[i].targetSlot, i)
    && w.clients[i.src].player != null && w.clients[i.target].player != null
    && w.clients[i.src].player != w.clients[i.target].player
  }

  ghost predicate Enrolled(w: World, p: Player) {
    p.id < |w.players| && w.players[p.id] == p
  }

  ghost predicate PlayerOk(w: World, c: Client)
    requires c in w.clients
  {
    w.clients[c].player != null ==> Enrolled(w, w.clients[c].player)
  }

  ghost predicate PlayersOk(w: World) {
    && |w.ratings| == |w.players|
    && (forall k :: 0 <= k < |w.players| ==> w.players[k].id == k && Sendable(w.players[k].name))
    && (forall c {:trigger PlayerOk(w, c)} :: c in w.clients ==> PlayerOk(w, c))
    && (forall j, k :: 0 <= j < k < |w.players| ==> w.players[j].name != w.players[k].name)
  }

  /** The sum of all ratings is what it was when everybody started. */
  ghost predicate RatingsConserved(w: World) {
    Sum(w.ratings) == INITIAL_RATING * |w.players| as real
  }

  /** No two registered clients are logged in as one player. */
  ghost predicate LoginsDistinct(w: World) {
    forall c, d | c in w.clients && d in w.clients && c != d && w.clients[c].registered && w.clients[d].registered ::
      w.clients[c].player != null ==> w.clients[c].player != w.clients[d].player
  }

  /** A notification carries the low eight bits of the recipient's own slot for the invitation, and all of its text. */
  ghost predicate Addressed(s: Sent) {
    && (s.packet.kind == AckPkt || s.packet.kind == NackPkt <==> s.about.None?)
    && (s.about.Some? ==>
          var a := s.about.value;
          && (a.to == a.inv.src || a.to == a.inv.target) && a.held && a.slot < a.peak
          && s.packet.fd == a.to.fd && s.packet.id == a.slot % 256 && !s.packet.payload.Piece?)
  }

  ghost predicate HistoryOk(w: World) {
    && (forall k :: 0 <= k < |w.log| ==> Addressed(w.log[k]))
    && (forall k :: 0 <= k < |w.posts| ==> w.posts[k].inv !in w.invs)
    && (forall k, l :: 0 <= k < l < |w.posts| ==> w.posts[k].inv != w.posts[l].inv)
  }

  ghost predicate TablesOk(w: World) {
    && (forall c {:trigger TableOk(w, c)} :: c in w.clients ==> TableOk(w, c))
    && (forall i {:trigger InvOk(w, i)} :: i in w.invs ==> InvOk(w, i))
  }

  ghost predicate GamesOk(w: World) {
    forall i {:trigger GameOk(w, i)} :: i in w.invs ==> GameOk(w, i)
  }

  ghost predicate Inv(w: World) {
    TablesOk(w) && GamesOk(w) && PlayersOk(w) && RatingsConserved(w) && LoginsDistinct(w) && HistoryOk(w)
  }

  /** Inv, kept folded. */
  ghost predicate Good(w: World) {
    forall k {:trigger Key(k)} :: Key(k) ==> Inv(w)
  }

  function EmptyWorld(): World {
    World(map[], map[], [], [], [], [])
  }

  lemma EmptyInv()
    ensures Good(EmptyWorld())
  {
  }

  // ---------------------------------------------------------------- the operations

  function FirstFree(slots: seq<Invitation?>): (k: nat)
    ensures k <= |slots| && (forall j :: 0 <= j < k ==> slots[j] != null) && (k < |slots| ==> slots[k] == null)
  {
    if slots == [] then 0
    else if slots[0] == null then 0
    else
      var k := FirstFree(slots[1..]);
      assert forall j :: 1 <= j < k + 1 ==> slots[j] == slots[1..][j - 1];
      k + 1
  }

  lemma FirstFreeIs(slots: seq<Invitation?>, k: nat)
    requires k < |slots| && slots[k] == null && forall j :: 0 <= j < k ==> slots[j] != null
    ensures FirstFree(slots) == k
  {
  }

  function PutIn(v: ClientV, k: nat, i: Invitation): ClientV
    requires k < |v.slots|
  {
    v.(slots := v.slots[k := i], peak := Max(v.peak, Occupied(v.slots, null) + 1))
  }

  function TakeOut(v: ClientV, k: nat): ClientV
    requires k < |v.slots|
  {
    v.(slots := v.slots[k := null])
  }

  /** A client that neither the registry nor an invitation refers to is freed. */
  function Settle(clients: map<Client, ClientV>, c: Client): map<Client, ClientV> {
    if c in clients && !clients[c].registered && Occupied(clients[c].slots, null) == 0 then clients - {c} else clients
  }

  /** One changed client, entry by entry. */
  lemma ChangedOne(before: map<Client, ClientV>, after: map<Client, ClientV>, a: Client, s: ClientV)
    requires a in before && after.Keys == before.Keys && after[a] == s
    requires forall c :: c in after && c != a ==> after[c] == before[c]
    ensures after == before[a := s]
  {
  }

  /** Two changed clients, entry by entry. */
  lemma ChangedMap(before: map<Client, ClientV>, after: map<Client, ClientV>, a: Client, b: Client, s: ClientV,
                   t: ClientV)
    requires a in before && b in before && a != b && after.Keys == before.Keys
    requires after[a] == s && after[b] == t
    requires forall c :: c in after && c != a && c != b ==> after[c] == before[c]
    ensures after == before[a := s][b := t]
  {
  }

  /** Settling one changed client, entry by entry. */
  lemma SettledOne(before: map<Client, ClientV>, after: map<Client, ClientV>, c: Client, s: ClientV)
    requires c in before
    requires c in after <==> s.registered || Occupied(s.slots, null) > 0
    requires c in after ==> after[c] == s
    requires forall d :: d != c ==> (d in after <==> d in before)
    requires forall d :: d in after && d != c ==> after[d] == before[d]
    ensures after == Settle(before[c := s], c)
  {
  }

  /** Settling two changed clients, entry by entry. */
  lemma SettledMap(before: map<Client, ClientV>, after: map<Client, ClientV>, a: Client, b: Client, s: ClientV,
                   t: ClientV)
    requires a in before && b in before && a != b
    requires a in after <==> s.registered || Occupied(s.slots, null) > 0
    requires b in after <==> t.registered || Occupied(t.slots, null) > 0
    requires a in after ==> after[a] == s
    requires b in after ==> after[b] == t
    requires forall c :: c != a && c != b ==> (c in after <==> c in before)
    requires forall c :: c in after && c != a && c != b ==> after[c] == before[c]
    ensures after == Settle(Settle(before[a := s][b := t], a), b)
  {
  }

  /** The invitation leaves both tables and is freed. */
  function Detach(w: World, i: Invitation): World
    requires i in w.invs
    requires InSlot(w, i.src, w.invs[i].srcSlot, i) && InSlot(w, i.target, w.invs[i].targetSlot, i) && i.src != i.target
  {
    var v := w.invs[i];
    var clients := w.clients[i.src := TakeOut(w.clients[i.src], v.srcSlot)]
                            [i.target := TakeOut(w.clients[i.target], v.targetSlot)];
    w.(clients := Settle(Settle(clients, i.src), i.target), invs := w.invs - {i})
  }

  /** A notification to one party about an invitation, by that party's slot in state w. */
  function Notice(w: World, i: Invitation, to: Client, kind: Kind, role: Role, payload: Payload, ok: bool): Sent
    requires i in w.invs && to in w.clients
  {
    var slot := SlotIn(w.invs[i], i, to);
    Sent(Packet(to.fd, kind, slot % 256, role, payload, ok),
        Some(Subject(i, to, slot, InSlot(w, to, slot, i), w.clients[to].peak, w.clients[to].registered)))
  }

  /** Player_post_result for a finished game: the FIRST-role player comes first. */
  ghost function PostGame(w: World, before: World, i: Invitation, pow10: real -> real, winner: Role): World
    requires IsPower(pow10)
    requires i.src in before.clients && i.target in before.clients
    requires before.clients[i.src].player != null && before.clients[i.target].player != null
  {
    var p: Player := before.clients[i.src].player;
    var q: Player := before.clients[i.target].player;
    var first := if i.srcRole == First then p else q;
    var second := if i.srcRole == First then q else p;
    w.(ratings := if first.id < |w.ratings| && second.id < |w.ratings| && first.id != second.id
                  then PostAt(pow10, w.ratings, first.id, second.id, ResultCode(winner)) else w.ratings,
       posts := w.posts + [Posted(first, second, ResultCode(winner), i)])
  }

  /** The client an invitation by user name goes to: registered, and logged in under the name (kept folded). */
  ghost predicate Addressee(w: World, name: string, t: Client) {
    forall k {:trigger Key(k)} :: Key(k) ==>
      t in w.clients && w.clients[t].registered && w.clients[t].player != null && w.clients[t].player.name == name
  }

  /** The rounded rating of a player. */
  function RatingOf(w: World, p: Player): int {
    if p.id < |w.ratings| then Rounded(w.ratings[p.id]) else 0
  }

  /** The line is about this client's user: its name, and its rating. */
  ghost predicate Describes(w: World, l: Line, c: Client) {
    c in w.clients && Addressee(w, l.name, c) && w.clients[c].player != null
        && l.rating == RatingOf(w, w.clients[c].player)
  }

  /** A list of everybody logged in with the present rating, each name once. */
  ghost predicate Roster(w: World, lines: seq<Line>) {
    && (forall j, k :: 0 <= j < k < |lines| ==> lines[j].name != lines[k].name)
    && forall l :: l in lines <==> exists c :: c in w.clients && Describes(w, l, c)
  }

  /** An invitation results: two different clients, two roles, a free slot in each table. */
  predicate Makes(w: World, source: Client, target: Client, sourceRole: Role, targetRole: Role)
    requires source in w.clients && target in w.clients
  {
    && !Uninvitable(source, target, sourceRole, targetRole)
    && FirstFree(w.clients[source].slots) < |w.clients[source].slots|
    && FirstFree(w.clients[target].slots) < |w.clients[target].slots|
  }

  /**
   client_make_invitation; `i` is the invitation object it allocates.  When only the target's table is
   full, the number of the source's slot, taken and given back, is returned all the same.
   */
  function Make(w: World, source: Client, target: Client, sourceRole: Role, targetRole: Role, i: Invitation?,
                ok: bool): (World, int)
    requires source in w.clients && target in w.clients && w.clients[source].player != null
    requires Makes(w, source, target, sourceRole, targetRole) ==> i != null
  {
    var s, t := w.clients[source], w.clients[target];
    var j, k := FirstFree(s.slots), FirstFree(t.slots);
    if Uninvitable(source, target, sourceRole, targetRole) || j == |s.slots| then (w, -1)
    else if k == |t.slots| then (w, j)
    else
      var w' := w.(clients := w.clients[source := PutIn(s, j, i)][target := PutIn(t, k, i)],
                   invs := w.invs[i := InvV(j, k, None)]);
      var notice := Sent(Packet(target.fd, InvitedPkt, k % 256, targetRole, Carried(Name(s.player.name)), ok),
                         Some(Subject(i, target, k, InSlot(w', target, k, i), w'.clients[target].peak,
                             w'.clients[target].registered)));
      (w'.(log := w.log + [notice]), if ok then j else -1)
  }

  /** The invitation that a user makes to another, by the role in the request. */
  predicate Between(i: Invitation, source: Client, target: Client, role: Role) {
    i.src == source && i.target == target && i.srcRole == Opponent(TargetRole(role)) && i.targetRole == TargetRole(role)
  }

  /** invite_handler up to its reply, as a relation (kept folded): from w to w' with status r. */
  ghost predicate Invites(w: World, source: Client, name: string, role: Role, target: Client?, i: Invitation?, ok: bool,
                          w': World, r: int) {
    forall k {:trigger Key(k)} :: Key(k) ==>
      && Good(w) && source in w.clients && w.clients[source].player != null
      && if target == null then
           (forall c :: c in w.clients ==> !Addressee(w, name, c)) && w' == w && r == -1
         else
           var (mine, theirs) := (Opponent(TargetRole(role)), TargetRole(role));
           && Addressee(w, name, target)
           && (Makes(w, source, target, mine, theirs) ==> i != null)
           && (w', r) == Make(w, source, target, mine, theirs, i, ok)
  }

  predicate Indexes(w: World, c: Client, id: nat) {
    c in w.clients && id < |w.clients[c].slots|
  }

  /** The id names an open invitation in which c is the source (for a revocation) or the target. */
  predicate Withdrawable(w: World, c: Client, id: nat, asSource: bool)
    requires Indexes(w, c, id)
  {
    var i := w.clients[c].slots[id];
    i != null && i in w.invs && w.invs[i].game.None? && c == if asSource then i.src else i.target
  }

  /** client_revoke_invitation (as source) and client_decline_invitation (as target). */
  function Withdraw(w: World, c: Client, id: nat, asSource: bool, ok: bool): (World, int)
    requires Good(w) && Indexes(w, c, id)
  {
    if !Withdrawable(w, c, id, asSource) then (w, -1)
    else
      var i: Invitation := w.clients[c].slots[id];
      assert Key(0) && InvOk(w, i);
      var notice := Notice(w, i, OtherParty(i, c), if asSource then RevokedPkt else DeclinedPkt, NullRole, Nothing, ok);
      (Detach(w, i).(log := w.log + [notice]), if ok then 0 else -1)
  }

  /** client_accept_invitation: the status, and what the accepter is told if it moves first. */
  function Accept(w: World, c: Client, id: nat, ok: bool): (World, int, Option<Payload>)
    requires Good(w) && Indexes(w, c, id)
  {
    if !Withdrawable(w, c, id, false) then (w, -1, None)
    else
      var i: Invitation := w.clients[c].slots[id];
      assert Key(0) && InvOk(w, i);
      var text := Position(Initial().cells, First);
      var notice := Notice(w, i, i.src, AcceptedPkt, i.srcRole, if i.srcRole == First then text else Nothing, ok);
      (w.(invs := w.invs[i := w.invs[i].(game := Some(Initial()))], log := w.log + [notice]),
       if ok then 0 else -1,
       if i.srcRole == First then None else Some(text))
  }

  /** The id names an invitation with a game. */
  predicate InGame(w: World, c: Client, id: nat)
    requires Indexes(w, c, id)
  {
    var i := w.clients[c].slots[id];
    i != null && i in w.invs && w.invs[i].game.Some?
  }

  /** client_resign_game: three packets, in this order, then the result. */
  ghost function Quit(w: World, c: Client, id: nat, oks: seq<bool>, pow10: real -> real): (World, int)
    requires Good(w) && Indexes(w, c, id) && IsPower(pow10)
    requires InGame(w, c, id) ==> |oks| == 3
  {
    if !InGame(w, c, id) then (w, -1)
    else
      var i: Invitation := w.clients[c].slots[id];
      assert Key(0) && InvOk(w, i) && TableOk(w, c) && SlotOk(w, c, id);
      var other := OtherParty(i, c);
      var winner := Concede(w.invs[i].game.value, RoleOf(i, c)).winner;
      var log := w.log + [Notice(w, i, other, ResignedPkt, NullRole, Nothing, oks[0]),
                          Notice(w, i, c, EndedPkt, winner, Nothing, oks[1]),
                          Notice(w, i, other, EndedPkt, winner, Nothing, oks[2])];
      (PostGame(Detach(w, i).(log := log), w, i, pow10, winner), if oks[2] then 0 else -1)
  }

  /** The move is accepted: a game, the right turn, a well-formed string, a free cell. */
  ghost predicate Playable(w: World, c: Client, id: nat, move: string)
    requires Indexes(w, c, id)
  {
    && InGame(w, c, id)
    && var i: Invitation := w.clients[c].slots[id];
       MoveIn(w.invs[i].game.value, RoleOf(i, c), move).Some?
  }

  /** client_make_move. */
  ghost function Advance(w: World, c: Client, id: nat, move: string, oks: seq<bool>, pow10: real -> real): (World, int)
    requires Good(w) && Indexes(w, c, id) && IsPower(pow10)
    requires Playable(w, c, id, move) ==> |oks| == 3
  {
    if !Playable(w, c, id, move) then (w, -1)
    else
      var i: Invitation := w.clients[c].slots[id];
      assert Key(0) && InvOk(w, i) && TableOk(w, c) && SlotOk(w, c, id);
      var other := OtherParty(i, c);
      var g := w.invs[i].game.value;
      var m := MoveIn(g, RoleOf(i, c), move).value;
      var g' := Play(g, RoleOf(i, c), m.num - 1);
      var moved := Notice(w, i, other, MovedPkt, NullRole, Position(g'.cells, g'.turn), oks[0]);
      if g'.over then
        var log := w.log + [moved, Notice(w, i, c, EndedPkt, g'.winner, Nothing, oks[1]),
            Notice(w, i, other, EndedPkt, g'.winner, Nothing, oks[2])];
        (PostGame(Detach(w, i).(log := log), w, i, pow10, g'.winner), 0)
      else
        (w.(invs := w.invs[i := w.invs[i].(game := Some(g'))], log := w.log + [moved]), 0)
  }

  /** The operations as relations, kept folded: from w to w' with status r. */
  ghost predicate Withdraws(w: World, c: Client, id: nat, asSource: bool, ok: bool, w': World, r: int) {
    forall k {:trigger Key(k)} :: Key(k) ==> Good(w) && Indexes(w, c, id) && (w', r) == Withdraw(w, c, id, asSource, ok)
  }

  ghost predicate Accepts(w: World, c: Client, id: nat, ok: bool, w': World, r: int, told: Option<Payload>) {
    forall k {:trigger Key(k)} :: Key(k) ==> Good(w) && Indexes(w, c, id) && (w', r, told) == Accept(w, c, id, ok)
  }

  ghost predicate Quits(w: World, c: Client, id: nat, oks: seq<bool>, pow10: real -> real, w': World, r: int) {
    forall k {:trigger Key(k)} :: Key(k) ==>
                                    && Good(w) && Indexes(w, c, id) && IsPower(pow10)
                                    && (InGame(w, c, id) ==> |oks| == 3)
                                    && (w', r) == Quit(w, c, id, oks, pow10)
  }

  ghost predicate Advances(w: World, c: Client, id: nat, move: string, oks: seq<bool>, pow10: real -> real, w': World,
                           r: int) {
    forall k {:trigger Key(k)} :: Key(k) ==>
                                    && Good(w) && Indexes(w, c, id) && IsPower(pow10)
                                    && (Playable(w, c, id, move) ==> |oks| == 3)
                                    && (w', r) == Advance(w, c, id, move, oks, pow10)
  }

  /** A client as creg_register creates it: connected, not logged in, with an empty table. */
  function NewClient(): ClientV {
    ClientV(null, seq(CAP, _ => null), 0, true)
  }

  /** creg_unregister. */
  function Disconnect(w: World, c: Client): World
    requires c in w.clients
  {
    w.(clients := Settle(w.clients[c := w.clients[c].(registered := false)], c))
  }

  /** The end of client_logout: the client has no player any more. */
  function Leave(w: World, c: Client): World
    requires c in w.clients
  {
    w.(clients := w.clients[c := w.clients[c].(player := null)])
  }

  /** preg_register of a new name. */
  function Enroll(w: World, p: Player): World {
    w.(players := w.players + [p], ratings := w.ratings + [INITIAL_RATING])
  }

  /** client_login: refused when logged in already, or when a registered client has this player. */
  ghost function Login(w: World, c: Client, p: Player): (World, int)
    requires c in w.clients
  {
    if w.clients[c].player != null then (w, -1)
    else if exists d :: d in w.clients && w.clients[d].registered && w.clients[d].player == p then (w, -1)
    else (w.(clients := w.clients[c := w.clients[c].(player := p)]), 0)
  }
}
