/**
 The service threads of src/server.c, one request at a time: dispatch, login gating, replies.  Threads
 interleave between requests in any order.  The whole history since the server started is kept as a
 run of module Runs, so what is proved of runs holds of the objects.
 */
module Services {
  import opened Roles
  import opened Sealing
  import opened TicTacToe
  import opened Games
  import opened Elo
  import opened Players
  import opened Lobby
  import opened Operations
  import opened Slots
  import opened Worlds
  import opened Logout
  import opened Runs
  import opened InviteIds
  import opened Payloads
  import opened Delivery
  import opened Rules
  import opened Server

  datatype RequestKind =
    | LoginReq | UsersReq | InviteReq | RevokeReq | AcceptReq | DeclineReq | MoveReq | ResignReq | UnknownReq

  /** A payload received: its size has sixteen bits. */
  type Content = s: string | Sendable(s)

  /** A packet received: type, eight-bit id, role, and the payload, if its size was not 0. */
  datatype Request = Request(kind: RequestKind, id: nat, role: Role, payload: Option<Content>)

  /** The C string at the start of a buffer: everything before the first NUL. */
  function CString(s: string): (r: string)
    ensures '\0' !in r && r <= s && (|r| < |s| ==> s[|r|] == '\0')
  {
    if s == "" || s[0] == '\0' then "" else [s[0]] + CString(s[1..])
  }

  function Text(payload: Option<Content>): (r: string)
    ensures Sendable(r) && '\0' !in r
  {
    if payload == None then "" else CString(payload.value)
  }

  /** The requests after whose acknowledgement fails a NACK is tried as well. */
  predicate Retries(kind: RequestKind) {
    kind == RevokeReq || kind == DeclineReq || kind == AcceptReq || kind == MoveReq || kind == ResignReq
  }

  /** The operations a request leads to: none when its payload is missing; a login may register its player first. */
  ghost predicate Does(c: Client, q: Request, acts: seq<Op>) {
    match q.kind
    case LoginReq =>
      if q.payload == None then acts == []
      else
        && 1 <= |acts| <= 2
        && var last := acts[|acts| - 1];
           && last.LogIn? && last.c == c && last.p.name == Text(q.payload)
           && (|acts| == 2 ==> acts[0] == Register(last.p))
    case InviteReq =>
      if q.payload == None then acts == []
      else |acts| == 1 && acts[0].Invite? && acts[0].c == c && acts[0].name == Text(q.payload) && acts[0].role == q.role
    case RevokeReq => |acts| == 1 && acts[0].Revoke? && acts[0].c == c && acts[0].id == q.id
    case DeclineReq => |acts| == 1 && acts[0].Decline? && acts[0].c == c && acts[0].id == q.id
    case AcceptReq => |acts| == 1 && acts[0].AcceptOp? && acts[0].c == c && acts[0].id == q.id
    case ResignReq => |acts| == 1 && acts[0].ResignOp? && acts[0].c == c && acts[0].id == q.id
    case MoveReq => |acts| == 1 && acts[0].MoveOp? && acts[0].c == c && acts[0].id == q.id
        && acts[0].move == Text(q.payload)
    case UsersReq => acts == []
    case UnknownReq => acts == []
  }

  /** An acknowledgement: an invitation's carries its id; an acceptance's the board, if the accepter moves first. */
  ghost predicate Acknowledges(c: Client, q: Request, acts: seq<Op>, r: int, reply: Op) {
    && reply.Reply? && reply == Reply(c, AckPkt, if q.kind == InviteReq then r else 0, reply.payload, reply.ok)
    && if q.kind == UsersReq then reply.payload.Listing?
       else reply.payload == if |acts| == 1 && acts[0].AcceptOp?
           && acts[0].told.Some? then acts[0].told.value else Nothing
  }

  /**
   How a request is answered; r is the status of what was done.  Before the login everything but LOGIN is
   refused, and after it LOGIN is: nothing is done then.  An unknown request is ignored.  Otherwise there
   is one reply, by the status; only when an acknowledgement could not be sent, some handlers try a NACK
   as well.
   */
  ghost predicate Answers(c: Client, loggedIn: bool, q: Request, acts: seq<Op>, r: int, replies: seq<Op>) {
    if loggedIn == (q.kind == LoginReq) then acts == [] && Refusal(c, replies)
    else if q.kind == UnknownReq then acts == [] && replies == []
    else
      && Does(c, q, acts)
      && (acts == [] ==> r == if q.kind == UsersReq then 0 else -1)
      && if r == -1 then Refusal(c, replies)
         else
           && |replies| >= 1 && Acknowledges(c, q, acts, r, replies[0])
           && if replies[0].ok || !Retries(q.kind) then |replies| == 1 else Refusal(c, replies[1..])
  }

  /** The run goes on with the operations, the last of them with status r, and then the replies. */
  ghost predicate Continues(trace: Trace, acts: seq<Op>, r: int, replies: seq<Op>, after: Trace) {
    && after.ops == trace.ops + acts + replies
    && |trace.rs| + |acts| <= |after.rs|
    && (acts != [] ==> after.rs[|trace.rs| + |acts| - 1] == r)
  }

  /**
   The id that an acknowledged INVITE request gets back: the status, as far as eight bits go, and it names
   the new invitation in the client's table exactly when the invitee's table had room.
   */
  lemma InviteAcknowledged(c: Client, q: Request, trace: Trace, acts: seq<Op>, r: int, replies: seq<Op>, after: Trace,
                           pow10: real -> real)
    requires IsRun(after.ws, after.ops, after.rs, pow10) && IsPower(pow10) && |trace.ops| == |trace.rs|
    requires Continues(trace, acts, r, replies, after) && Answers(c, true, q, acts, r, replies)
    requires q.kind == InviteReq && r != -1
    ensures |trace.ops| + 2 < |after.ws| && |acts| == 1 && after.ops[|trace.ops|] == acts[0] && acts[0].c == c
    ensures c in after.ws[|trace.ops| + 1].clients
    ensures |after.ws[|trace.ops| + 2].log| == |after.ws[|trace.ops| + 1].log| + 1
    ensures var n := |trace.ops|;
            && var p := after.ws[n + 2].log[|after.ws[n + 1].log|].packet;
               && p.fd == c.fd && p.kind == AckPkt && (p.id == r <==> r < 256)
               && (Room(after.ws[n], acts[0]) <==> acts[0].inv != null && InSlot(after.ws[n + 1], c, r, acts[0].inv))
               && (Room(after.ws[n], acts[0]) && after.ws[n + 1].clients[c].peak <= 256 ==> p.id == r)
               && (!Room(after.ws[n], acts[0]) ==>
                    after.ws[n + 1] == after.ws[n] && InSlotNothing(after.ws[n + 1], c, r))
  {
    var n := |trace.ops|;
    assert after.ops[n] == acts[0] && after.ops[n + 1] == replies[0] && after.rs[n] == r;
    InvitedIdNamesInvitation(after.ws, after.ops, after.rs, pow10, n, n + 1);
    AcknowledgedIdFits(after.ws, after.ops, after.rs, pow10, n);
  }

  /**
   An INVITE request that makes an invitation gives the invitee the role it asks for, FIRST or else SECOND,
   and the inviter the other; and that is what the invitee is told.
   */
  lemma InviteHandled(c: Client, q: Request, trace: Trace, acts: seq<Op>, r: int, replies: seq<Op>, after: Trace,
                      pow10: real -> real)
    requires IsRun(after.ws, after.ops, after.rs, pow10) && IsPower(pow10) && |trace.ops| == |trace.rs|
    requires Continues(trace, acts, r, replies, after) && Answers(c, true, q, acts, r, replies)
    requires q.kind == InviteReq && acts != [] && after.ws[|trace.ops| + 1] != after.ws[|trace.ops|]
    ensures var (w, w', op) := (after.ws[|trace.ops|], after.ws[|trace.ops| + 1], after.ops[|trace.ops|]);
            && op == acts[0] && op.Invite? && op.c == c && op.inv != null && op.target != null
            && op.inv.src == c && op.inv.target == op.target && IsOpen(w', op.inv)
            && (q.role == First ==> op.inv.targetRole == First && op.inv.srcRole == Second)
            && (q.role != First ==> op.inv.targetRole == Second && op.inv.srcRole == First)
            && c in w.clients && w.clients[c].player != null
            && OneTold(w, w', op.target, InvitedPkt, if q.role == First then First else Second,
                       Name(w.clients[c].player.name), op.inv)
  {
    var n := |trace.ops|;
    assert after.ops[n] == acts[0];
    RunStep(after, pow10, n);
    InviteSides(after.ws[n], acts[0], pow10, after.ws[n + 1], after.rs[n]);
  }

  /**
   The acknowledgement of a USERS request lists everybody logged in; what goes out is as much of the list as
   the size field's sixteen bits say, all of it exactly when it has fewer than 65,536 characters.
   */
  lemma UsersAcknowledged(c: Client, q: Request, trace: Trace, acts: seq<Op>, r: int, replies: seq<Op>, after: Trace,
                          pow10: real -> real)
    requires IsRun(after.ws, after.ops, after.rs, pow10) && IsPower(pow10) && |trace.ops| == |trace.rs|
    requires Continues(trace, acts, r, replies, after) && Answers(c, true, q, acts, r, replies) && q.kind == UsersReq
    ensures acts == [] && |replies| == 1 && replies[0].Reply? && replies[0].payload.Listing?
    ensures |trace.ops| + 1 < |after.ws| && |after.ws[|trace.ops| + 1].log| == |after.ws[|trace.ops|].log| + 1
    ensures var n, text := |trace.ops|, ListingText(replies[0].payload.lines);
            var p := after.ws[n + 1].log[|after.ws[n].log|].packet;
            && p.fd == c.fd && p.kind == AckPkt
            && p.payload == (if |text| < 0x1_0000 then replies[0].payload else Piece(text[..|text| % 0x1_0000]))
            && Spells(p.payload, text[..|text| % 0x1_0000])
  {
    var n := |trace.ops|;
    assert after.ops[n] == replies[0];
    ReplyCarries(after.ws, after.ops, after.rs, pow10, n, ListingText(replies[0].payload.lines));
    assert Takes(after.ws[n], after.ops[n], pow10, after.ws[n + 1], after.rs[n]) by {
      assert Key(0);
    }
  }

  /** Every other acknowledgement carries all of its text: none, or the board. */
  lemma OthersWhole(c: Client, q: Request, trace: Trace, acts: seq<Op>, r: int, replies: seq<Op>, after: Trace,
                    pow10: real -> real)
    requires IsRun(after.ws, after.ops, after.rs, pow10) && IsPower(pow10) && |trace.ops| == |trace.rs|
    requires Continues(trace, acts, r, replies, after) && Answers(c, true, q, acts, r, replies)
    requires q.kind != UsersReq && q.kind != UnknownReq && q.kind != LoginReq && r != -1
    ensures |replies| >= 1 && replies[0].Reply? && |acts| == 1
    ensures |trace.ops| + 2 < |after.ws| && |after.ws[|trace.ops| + 2].log| == |after.ws[|trace.ops| + 1].log| + 1
    ensures var n := |trace.ops|;
            var p := after.ws[n + 2].log[|after.ws[n + 1].log|].packet;
            && p.fd == c.fd && p.kind == AckPkt && p.payload == replies[0].payload
            && (p.payload == Nothing || (q.kind == AcceptReq && p.payload == Position(Initial().cells, First)))
  {
    var n := |trace.ops|;
    assert after.ops[n] == acts[0] && after.ops[n + 1] == replies[0];
    RunStep(after, pow10, n);
    RunStep(after, pow10, n + 1);
    if acts[0].AcceptOp? {
      AccepterTold(after.ws[n], acts[0], pow10, after.ws[n + 1], after.rs[n]);
    }
  }

  lemma RunStep(t: Trace, pow10: real -> real, n: nat)
    requires IsRun(t.ws, t.ops, t.rs, pow10) && n < |t.ops|
    ensures |t.ws| == |t.rs| + 1 == |t.ops| + 1 && Takes(t.ws[n], t.ops[n], pow10, t.ws[n + 1], t.rs[n])
  {
    assert Key(0);
  }

  lemma AccepterTold(w: World, op: Op, pow10: real -> real, w': World, r: int)
    requires op.AcceptOp? && Takes(w, op, pow10, w', r)
    ensures op.told.Some? ==> op.told.value == Position(Initial().cells, First)
  {
    assert Key(0);
  }

  lemma LoginContinues(trace: Trace, acts: seq<Op>, mid: Trace, op: Op, w: World, r: int, after: Trace)
    requires |acts| <= 1 && mid.ops == trace.ops + acts && |mid.rs| == |trace.rs| + |acts|
      && after == mid.Then(op, w, r)
    ensures Continues(trace, acts + [op], r, [], after)
  {
  }

  lemma ReplyContinues(trace: Trace, acts: seq<Op>, r: int, mid: Trace, replies: seq<Op>, after: Trace)
    requires Continues(trace, acts, r, [], mid) && after.ops == mid.ops + replies && mid.rs <= after.rs
    ensures Continues(trace, acts, r, replies, after)
  {
  }

  lemma LoginAnswered(c: Client, q: Request, acts: seq<Op>, r: int, replies: seq<Op>)
    requires q.kind == LoginReq && Does(c, q, acts) && (acts == [] ==> r == -1)
    requires if r == -1 then Refusal(c, replies)
             else |replies| == 1 && replies[0].Reply? && replies[0] == Reply(c, AckPkt, 0, Nothing, replies[0].ok)
    ensures Answers(c, false, q, acts, r, replies)
  {
  }

  /** A service thread: its client, and the variable new_player of its loop. */
  class Session {
    const client: Client
    var newPlayer: Player?
    /** A login succeeded, but its acknowledgement could not be sent. */
    ghost var lost: bool

    constructor (client: Client)
      ensures this.client == client && newPlayer == null && !lost
    {
      this.client := client;
      newPlayer := null;
      lost := false;
    }
  }

  /** The replies are one NACK. */
  ghost predicate Refusal(c: Client, replies: seq<Op>) {
    |replies| == 1 && replies[0].Reply? && replies[0] == Reply(c, NackPkt, 0, Nothing, replies[0].ok)
  }

  /** How many counted references are held for a client. */
  ghost function HeldFor(holders: map<Player, multiset<Client>>, p: Player, c: Client): nat {
    if p in holders then holders[p][c] else 0
  }

  /** What is counted is counted for a client that is served, or twice for one that is stray. */
  ghost predicate Accounted(players: seq<Player>, holders: map<Player, multiset<Client>>, served: set<Client>,
                            stray: map<Client, Player>) {
    && (forall p, c :: p in holders && c in holders[p] && c !in served ==> c in stray && stray[c] == p)
    && (forall c :: c in stray ==> c !in served && stray[c] in players && HeldFor(holders, stray[c], c) == 2)
  }

  /** Changes to what is counted for clients that are served do not matter. */
  lemma AccountedStill(players: seq<Player>, players': seq<Player>, h: map<Player, multiset<Client>>,
                       h': map<Player, multiset<Client>>, served: set<Client>, stray: map<Client, Player>)
    requires Accounted(players, h, served, stray) && players <= players'
    requires forall p: Player, c: Client {:trigger HeldFor(h', p, c)} :: c !in served ==>
      HeldFor(h', p, c) == HeldFor(h, p, c)
    ensures Accounted(players', h', served, stray)
  {
    forall p, c | p in h' && c in h'[p] && c !in served
      ensures c in stray && stray[c] == p
    {
      assert HeldFor(h', p, c) > 0;
    }
  }

  /** One more client is served. */
  lemma AccountedMore(players: seq<Player>, h: map<Player, multiset<Client>>, served: set<Client>, stray: map<Client,
                      Player>, c: Client)
    requires Accounted(players, h, served, stray) && c !in stray
    ensures Accounted(players, h, served + {c}, stray)
  {
  }

  /** A client is not served any more. */
  lemma AccountedLess(players: seq<Player>, h: map<Player, multiset<Client>>, served: set<Client>, stray: map<Client,
                      Player>, c: Client, kept: Player?)
    requires Accounted(players, h, served, stray) && c in served
    requires forall p :: p in h ==> p in players
    requires kept != null ==> kept in players
    requires forall p :: p in players ==> HeldFor(h, p, c) == if p == kept then 2 else 0
    ensures Accounted(players, h, served - {c}, if kept == null then stray else stray[c := kept])
  {
    forall p, d | p in h && d in h[p] && d !in served - {c}
      ensures var after := if kept == null then stray else stray[c := kept]; d in after && after[d] == p
    {
      assert HeldFor(h, p, d) > 0;
    }
  }

  /** Counting two of each. */
  lemma {:induction false} TwiceEach<T>(m: multiset<T>, s: set<T>)
    requires forall x :: x in m <==> x in s
    requires forall x :: x in s ==> m[x] == 2
    ensures |m| == 2 * |s|
    decreases s
  {
    if s == {} {
      assert m == multiset{};
    } else {
      var x :| x in s;
      var m' := m[x := 0];
      assert m == m' + multiset{x, x};
      TwiceEach(m', s - {x});
    }
  }

  ghost function ClientsIn(ss: set<Session>): set<Client> {
    set s | s in ss :: s.client
  }

  lemma {:induction false} DifferentClients(ss: set<Session>)
    requires forall s, t :: s in ss && t in ss && s != t ==> s.client != t.client
    ensures |ClientsIn(ss)| == |ss|
    decreases ss
  {
    if ss == {} {
      assert ClientsIn(ss) == {};
    } else {
      var s :| s in ss;
      DifferentClients(ss - {s});
      assert s.client !in ClientsIn(ss - {s});
      assert ClientsIn(ss) == ClientsIn(ss - {s}) + {s.client};
    }
  }

  /** A connection ends while its client is logged in. */
  ghost predicate LeavesLoggedIn(w: World, op: Op) {
    op.Unregister? && op.c in w.clients && w.clients[op.c].player != null
  }

  class Service {
    const jeux: Jeux
    ghost var sessions: set<Session>
    /** The clients whose connections ended after a lost login, with the player they were logged in as. */
    ghost var stray: map<Client, Player>

    /**
     The thread's view of its client: `newPlayer` is set exactly when the client is logged in, unless an
     acknowledgement was lost.  Two references to the player are counted for a logged-in client.
     */
    ghost predicate SessionOk(s: Session, w: World, holders: map<Player, multiset<Client>>)
      reads s
    {
      && s.client in w.clients && w.clients[s.client].registered
      && var p := w.clients[s.client].player;
      && (s.newPlayer != null ==> p == s.newPlayer)
      && (p != null ==> p in w.players)
      && (forall q :: q in w.players ==> HeldFor(holders, q, s.client) == if q == p then 2 else 0)
      && (p != null <==> s.newPlayer != null || s.lost)
      && (s.lost ==> s.newPlayer == null)
    }

    ghost function Served(): set<Client>
      reads `sessions
    {
      ClientsIn(sessions)
    }

    /** All threads but this one, if one is given, are in order; all have different clients. */
    ghost predicate SessionsOk(w: World, holders: map<Player, multiset<Client>>, but: Session?)
      reads this, sessions
    {
      && (forall s {:trigger SessionOk(s, w, holders)} :: s in sessions && s != but ==> SessionOk(s, w, holders))
      && (forall s, t :: s in sessions && t in sessions && s != t ==> s.client != t.client)
      && (forall p :: p in holders ==> p in w.players)
      && (but == null || but in sessions)
      && Accounted(w.players, holders, Served(), stray)
    }

    /** SessionsOk, kept folded. */
    ghost predicate ThreadsKnown(w: World, holders: map<Player, multiset<Client>>, but: Session?)
      reads this, sessions
    {
      forall k {:trigger SessionKey(k)} :: SessionKey(k) ==> SessionsOk(w, holders, but)
    }

    /** Every client whose connection ended while it was logged in is on record as stray (kept folded). */
    ghost predicate DeparturesKnown(trace: Trace)
      reads `stray
    {
      forall k {:trigger SessionKey(k)} :: SessionKey(k) ==>
        forall m {:trigger trace.ops[m]} :: 0 <= m < |trace.ops| && m < |trace.ws| ==>
          LeavesLoggedIn(trace.ws[m], trace.ops[m]) ==> trace.ops[m].c in stray
    }

    lemma DeparturesThen(trace: Trace, w: World, op: Op, w': World, r: int)
      requires DeparturesKnown(trace) && trace.Run(jeux.pow10) && trace.EndsIn(w)
      requires LeavesLoggedIn(w, op) ==> op.c in stray
      ensures DeparturesKnown(trace.Then(op, w', r))
    {
      assert Key(0) && SessionKey(0);
      assert |trace.ws| == |trace.ops| + 1;
    }

    /** `trace` is the run so far: it leads from the empty server to this state. */
    ghost predicate ValidBut(trace: Trace, but: Session?)
      reads this, sessions, jeux, jeux.Repr
    {
      && this !in jeux.Repr && (forall s: Session :: s in sessions ==> s !in jeux.Repr)
      && jeux.Valid()
      && trace.Run(jeux.pow10) && trace.EndsIn(jeux.View())
      && ThreadsKnown(jeux.View(), jeux.books.holders, but)
      && DeparturesKnown(trace)
    }

    /** Between requests. */
    ghost predicate Valid(trace: Trace)
      reads this, sessions, jeux, jeux.Repr
    {
      ValidBut(trace, null)
    }

    constructor (pow10: real -> real)
      requires IsPower(pow10)
      ensures Valid(NewTrace()) && fresh(jeux) && fresh(jeux.Repr) && sessions == {}
    {
      jeux := new Jeux(pow10);
      sessions := {};
      stray := map[];
      new;
      NewRun(pow10);
    }

    /** What the thread's variables say, in the specification's terms. */
    lemma ClientHere(c: Client)
      requires jeux.Valid()
      ensures jeux.Registered(c) <==> c in jeux.View().clients && jeux.View().clients[c].registered
      ensures c in jeux.View().clients ==> jeux.View().clients[c].player == c.player && c in jeux.books.clients
      ensures IsPower(jeux.pow10) && Good(jeux.View()) && jeux.View().players == jeux.preg.players
    {
      assert Key(0);
      if c in jeux.View().clients {
        assert jeux.View().clients[c] == jeux.ClientView(c);
      }
      if jeux.Registered(c) {
        assert jeux.View().clients[c] == jeux.ClientView(c);
      }
    }

    lemma ClientLength(c: Client)
      requires jeux.Valid() && c in jeux.books.clients
      ensures c in jeux.View().clients && c.len == Occupied(jeux.View().clients[c].slots, null)
    {
      jeux.ClientFacts(c);
      assert Key(0);
    }

    lemma SessionFacts(s: Session, trace: Trace)
      requires Valid(trace) && s in sessions
      ensures SessionOk(s, jeux.View(), jeux.books.holders) && |jeux.View().clients[s.client].slots| == CAP
      ensures jeux.Registered(s.client) && s.client in jeux.books.clients
        && jeux.View().clients[s.client].player == s.client.player
      ensures Good(jeux.View()) && IsPower(jeux.pow10)
    {
      assert SessionKey(0);
      assert SessionOk(s, jeux.View(), jeux.books.holders);
      ClientHere(s.client);
      assert Key(0);
      assert Worlds.TableOk(jeux.View(), s.client);
    }

    /** The objects' whole history is a run, so the theorems of module Runs are theorems about the objects. */
    lemma HistoryIsRun(trace: Trace)
      requires Valid(trace)
      ensures IsRun(trace.ws, trace.ops, trace.rs, jeux.pow10) && IsPower(jeux.pow10)
      ensures trace.ws[|trace.ws| - 1] == jeux.View()
    {
      assert Key(0);
    }

    /**
     On the objects: a notification was written to nobody only if it was for a client on record as stray, one
     whose connection ended after the acknowledgement of its login had been lost (see Close).
     */
    lemma UndeliveredIsStray(trace: Trace, n: nat)
      requires Valid(trace) && n < |jeux.View().log| && jeux.View().log[n].about.Some?
      ensures !jeux.View().log[n].about.value.connected ==> jeux.View().log[n].about.value.to in stray
    {
      HistoryIsRun(trace);
      var a := jeux.View().log[n].about.value;
      var j := DeliveredUnlessLeft(trace.ws, trace.ops, trace.rs, jeux.pow10, |trace.ws| - 1, n);
      if !a.connected {
        var m: nat :| LeftEarlier(trace.ws, trace.ops, j, a.to, m);
        assert trace.ops[m] == Unregister(a.to) && LeavesLoggedIn(trace.ws[m], trace.ops[m]);
        assert SessionKey(0);
      }
    }

    /** Between requests a thread's `newPlayer` is its client's player, unless an acknowledged login got lost. */
    lemma NewPlayerIsThePlayer(s: Session, trace: Trace)
      requires Valid(trace) && s in sessions
      ensures s.newPlayer != null <==> s.client.player != null && !s.lost
      ensures s.newPlayer != null ==> s.newPlayer == s.client.player
    {
      SessionFacts(s, trace);
    }

    /** Conservation, on the objects: the ratings of all players add up to 1500 each. */
    lemma RatingsHere(trace: Trace)
      requires Valid(trace)
      ensures Sum(jeux.preg.Ratings()) == 1500.0 * |jeux.preg.players| as real
    {
      HistoryIsRun(trace);
      RatingsAddUp(trace.ws, trace.ops, trace.rs, jeux.pow10, |trace.ws| - 1);
    }

    ghost function LoggedInAs(p: Player): set<Session>
      reads `sessions, set s | s in sessions :: s.client
    {
      set s | s in sessions && s.client.player == p
    }

    ghost function ClientsAs(p: Player): set<Client>
      reads `sessions, set s | s in sessions :: s.client
    {
      ClientsIn(LoggedInAs(p))
    }

    ghost function StraysOf(p: Player): set<Client>
      reads `stray
    {
      set c | c in stray && stray[c] == p
    }

    /** Whom a player's references are counted for: clients logged in as the player, and stray ones, twice each. */
    lemma HolderIs(p: Player, c: Client, trace: Trace)
      requires Valid(trace) && p in jeux.preg.players
      ensures !(c in ClientsAs(p) && c in StraysOf(p))
      ensures jeux.HoldersOf(p)[c] == if c in ClientsAs(p) || c in StraysOf(p) then 2 else 0
    {
      assert SessionKey(0);
      ghost var w, h := jeux.View(), jeux.books.holders;
      ClientHere(c);
      assert w.players == jeux.preg.players && jeux.HoldersOf(p)[c] == HeldFor(h, p, c);
      if c in Served() {
        ghost var s :| s in sessions && s.client == c;
        SessionFacts(s, trace);
      }
    }

    /**
     A player's reference count, exactly, between requests: the registry's, two for every open connection
     logged in as the player, and two for every connection that ended after a lost login.
     */
    lemma PlayerCountIs(p: Player, trace: Trace)
      requires Valid(trace) && p in jeux.preg.players
      ensures p.alive && p.refCount == 1 + 2 * |LoggedInAs(p)| + 2 * |StraysOf(p)|
    {
      forall c: Client
        ensures !(c in ClientsAs(p) && c in StraysOf(p))
        ensures jeux.HoldersOf(p)[c] == if c in ClientsAs(p) || c in StraysOf(p) then 2 else 0
      {
        HolderIs(p, c, trace);
      }
      jeux.CountsAreExact();
      TwiceEach(jeux.HoldersOf(p), ClientsAs(p) + StraysOf(p));
      assert SessionKey(0);
      DifferentClients(LoggedInAs(p));
    }

    /** The threads an operation does not concern are in order after it. */
    lemma StepSessions(w: World, holders: map<Player, multiset<Client>>, op: Op, r: int, but: Session?)
      requires jeux.Valid() && Good(w) && IsPower(jeux.pow10)
      requires SessionsOk(w, holders, but)
      requires forall p :: p in jeux.books.holders ==> p in holders || p in jeux.View().players
      requires Takes(w, op, jeux.pow10, jeux.View(), r)
      requires forall t :: t in sessions && t != but ==> !Concerns(op, t.client)
      requires forall p: Player, c: Client {:trigger HeldFor(jeux.books.holders, p, c)} ::
                 but == null || c != but.client ==> HeldFor(jeux.books.holders, p, c) == HeldFor(holders, p, c)
      ensures SessionsOk(jeux.View(), jeux.books.holders, but)
    {
      StepOnward(w, op, jeux.pow10, jeux.View(), r);
      AccountedStill(w.players, jeux.View().players, holders, jeux.books.holders, Served(), stray);
      forall t | t in sessions && t != but
        ensures SessionOk(t, jeux.View(), jeux.books.holders)
      {
        assert SessionOk(t, w, holders);
        assert forall q :: q in jeux.View().players && q !in w.players ==> HeldFor(holders, q, t.client) == 0;
        StepOthers(w, op, jeux.pow10, jeux.View(), r, t.client);
      }
    }

    /** After one operation: the trace extended, the threads in order. */
    lemma StepDone(w: World, holders: map<Player, multiset<Client>>, op: Op, r: int, but: Session?, trace: Trace)
      requires jeux.Valid() && Good(w) && IsPower(jeux.pow10)
      requires this !in jeux.Repr && (forall s: Session :: s in sessions ==> s !in jeux.Repr)
      requires trace.Run(jeux.pow10) && trace.EndsIn(w) && DeparturesKnown(trace)
      requires ThreadsKnown(w, holders, but)
      requires Takes(w, op, jeux.pow10, jeux.View(), r) && (LeavesLoggedIn(w, op) ==> op.c in stray)
      requires forall t :: t in sessions && t != but ==> !Concerns(op, t.client)
      requires forall p :: p in jeux.books.holders ==> p in holders || p in jeux.View().players
      requires forall p: Player, c: Client {:trigger HeldFor(jeux.books.holders, p, c)} ::
                 but == null || c != but.client ==> HeldFor(jeux.books.holders, p, c) == HeldFor(holders, p, c)
      ensures ValidBut(trace.Then(op, jeux.View(), r), but)
    {
      RunThen(trace, jeux.pow10, w, op, jeux.View(), r);
      DeparturesThen(trace, w, op, jeux.View(), r);
      assert SessionKey(0);
      StepSessions(w, holders, op, r, but);
    }

    /** A change to the counts of one thread's client only. */
    lemma HoldersDone(holders: map<Player, multiset<Client>>, but: Session?, trace: Trace)
      requires this !in jeux.Repr && (forall s: Session :: s in sessions ==> s !in jeux.Repr)
      requires jeux.Valid() && trace.Run(jeux.pow10) && trace.EndsIn(jeux.View()) && DeparturesKnown(trace)
      requires ThreadsKnown(jeux.View(), holders, but)
      requires forall p :: p in jeux.books.holders ==> p in holders || p in jeux.View().players
      requires forall p: Player, c: Client {:trigger HeldFor(jeux.books.holders, p, c)} ::
                 but == null || c != but.client ==> HeldFor(jeux.books.holders, p, c) == HeldFor(holders, p, c)
      ensures ValidBut(trace, but)
    {
      assert SessionKey(0);
      AccountedStill(jeux.View().players, jeux.View().players, holders, jeux.books.holders, Served(), stray);
      forall t | t in sessions && t != but
        ensures SessionOk(t, jeux.View(), jeux.books.holders)
      {
        assert SessionOk(t, jeux.View(), holders);
      }
    }

    /** A thread set aside is in order again. */
    lemma Resume(s: Session, trace: Trace)
      requires ValidBut(trace, s) && s in sessions && SessionOk(s, jeux.View(), jeux.books.holders)
      ensures Valid(trace)
    {
      assert SessionKey(0);
      forall t | t in sessions
        ensures SessionOk(t, jeux.View(), jeux.books.holders)
      {
        assert t != s ==> SessionOk(t, jeux.View(), jeux.books.holders);
      }
    }

    /** Any one thread may be set aside. */
    lemma SetAside(s: Session, w: World, holders: map<Player, multiset<Client>>)
      requires s in sessions && ThreadsKnown(w, holders, null)
      ensures ThreadsKnown(w, holders, s)
      ensures forall t :: t in sessions && t != s ==> t.client != s.client
    {
      assert SessionKey(0);
      forall t | t in sessions && t != s
        ensures SessionOk(t, w, holders)
      {
        assert SessionOk(t, w, holders);
      }
    }

    // ---------------------------------------------------------------- the operations, entered into the trace

    method DoWithdraw(s: Session, id: nat, asSource: bool, ghost trace: Trace)
      returns (r: int, ghost op: Op, ghost after: Trace)
      requires Valid(trace) && s in sessions && id < CAP
      modifies jeux.Repr
      ensures Valid(after) && fresh(jeux.Repr - old(jeux.Repr)) && after == trace.Then(op, jeux.View(), r)
      ensures op == if asSource then Revoke(s.client, id, r == 0) else Decline(s.client, id, r == 0)
    {
      SessionFacts(s, trace);
      ghost var w, holders := jeux.View(), jeux.books.holders;
      r := jeux.WithdrawEntry(s.client, id, asSource);
      op := if asSource then Revoke(s.client, id, r == 0) else Decline(s.client, id, r == 0);
      StepDone(w, holders, op, r, null, trace);
      after := trace.Then(op, jeux.View(), r);
    }

    method DoAccept(s: Session, id: nat, ghost trace: Trace)
      returns (r: int, strp: Option<string>, ghost op: Op, ghost after: Trace)
      requires Valid(trace) && s in sessions && id < CAP
      modifies jeux.Repr
      ensures Valid(after) && fresh(jeux.Repr - old(jeux.Repr)) && after == trace.Then(op, jeux.View(), r)
      ensures op.AcceptOp? && op.c == s.client && op.id == id && op.ok == (r == 0)
      ensures if op.told == None then strp == None else strp.Some? && Spells(op.told.value, strp.value)
    {
      SessionFacts(s, trace);
      ghost var w, holders := jeux.View(), jeux.books.holders;
      ghost var told;
      r, strp, told := jeux.AcceptEntry(s.client, id);
      op := AcceptOp(s.client, id, r == 0, told);
      StepDone(w, holders, op, r, null, trace);
      after := trace.Then(op, jeux.View(), r);
    }

    method DoResign(s: Session, id: nat, ghost trace: Trace) returns (r: int, ghost op: Op, ghost after: Trace)
      requires Valid(trace) && s in sessions && id < CAP
      modifies jeux.Repr
      ensures Valid(after) && fresh(jeux.Repr - old(jeux.Repr)) && after == trace.Then(op, jeux.View(), r)
      ensures op.ResignOp? && op.c == s.client && op.id == id
    {
      SessionFacts(s, trace);
      ghost var w, holders := jeux.View(), jeux.books.holders;
      ghost var oks;
      r, oks := jeux.ResignEntry(s.client, id);
      op := ResignOp(s.client, id, oks);
      StepDone(w, holders, op, r, null, trace);
      after := trace.Then(op, jeux.View(), r);
    }

    method DoMove(s: Session, id: nat, move: string, ghost trace: Trace)
      returns (r: int, ghost op: Op, ghost after: Trace)
      requires Valid(trace) && s in sessions && id < CAP
      modifies jeux.Repr
      ensures Valid(after) && fresh(jeux.Repr - old(jeux.Repr)) && after == trace.Then(op, jeux.View(), r)
      ensures op.MoveOp? && op.c == s.client && op.id == id && op.move == move
    {
      SessionFacts(s, trace);
      ghost var w, holders := jeux.View(), jeux.books.holders;
      ghost var oks;
      r, oks := jeux.MoveEntry(s.client, id, move);
      op := MoveOp(s.client, id, move, oks);
      StepDone(w, holders, op, r, null, trace);
      after := trace.Then(op, jeux.View(), r);
    }

    method DoInvite(s: Session, name: string, role: Role, ghost trace: Trace)
      returns (r: int, ghost op: Op, ghost after: Trace)
      requires Valid(trace) && s in sessions && s.newPlayer != null
      modifies jeux.Repr
      ensures Valid(after) && fresh(jeux.Repr - old(jeux.Repr)) && after == trace.Then(op, jeux.View(), r)
      ensures op.Invite? && op.c == s.client && op.name == name && op.role == role
    {
      SessionFacts(s, trace);
      ghost var w, holders := jeux.View(), jeux.books.holders;
      ghost var target, inv, ok;
      r, target, inv, ok := jeux.InviteEntry(s.client, name, role);
      op := Invite(s.client, name, role, target, inv, ok);
      StepDone(w, holders, op, r, null, trace);
      after := trace.Then(op, jeux.View(), r);
    }

    /** A reply to the thread's client, also in the middle of a login. */
    method DoReply(s: Session, kind: Kind, id: int, data: string, ghost payload: Payload, ghost trace: Trace,
                   ghost but: Session?)
      returns (status: int, ghost op: Op, ghost after: Trace)
      requires ValidBut(trace, but) && s in sessions && s.client in jeux.books.clients
      requires (kind == AckPkt || kind == NackPkt) && Spells(payload, data)
      modifies jeux.Repr
      ensures ValidBut(after, but) && fresh(jeux.Repr - old(jeux.Repr)) && after == trace.Then(op, jeux.View(), status)
      ensures (status == 0 || status == -1) && op == Reply(s.client, kind, id, payload, status == 0)
      ensures jeux.View().clients == old(jeux.View()).clients && jeux.View().players == old(jeux.View()).players
      ensures jeux.books.holders == old(jeux.books.holders)
    {
      ClientHere(s.client);
      ghost var w, holders := jeux.View(), jeux.books.holders;
      assert w.clients[s.client] == jeux.ClientView(s.client);
      status := jeux.ReplyEntry(s.client, kind, id, data, payload);
      op := Reply(s.client, kind, id, payload, status == 0);
      StepDone(w, holders, op, status, but, trace);
      after := trace.Then(op, jeux.View(), status);
    }

    /** The client is logged in as p, or as nobody, and the counts held for it say so; one more is held for `extra`. */
    ghost predicate Balanced(s: Session, w: World, holders: map<Player, multiset<Client>>, p: Player?, extra: Player?) {
      && s.client in w.clients && w.clients[s.client].registered && w.clients[s.client].player == p
      && (p != null ==> p in w.players)
      && forall q :: q in w.players ==>
           HeldFor(holders, q, s.client) == (if q == p then 2 else 0) + if q == extra then 1 else 0
    }

    lemma OtherClients(s: Session, trace: Trace, but: Session?)
      requires ValidBut(trace, but)
      ensures s in sessions ==> forall t :: t in sessions && t != s ==> t.client != s.client
      ensures forall p :: p in jeux.books.holders ==> p in jeux.View().players
    {
      assert SessionKey(0);
    }

    /** One more reference counted for a client. */
    lemma CountUp(s: Session, w: World, h: map<Player, multiset<Client>>, w': World, h': map<Player, multiset<Client>>,
                  p: Player, was: Player?)
      requires Balanced(s, w, h, was, null) && w'.clients == w.clients && w.players <= w'.players && p in w'.players
      requires forall q :: q in h ==> q in w.players
      requires forall q :: q in w'.players ==> q in w.players || q == p
      requires h' == h[p := (if p in h then h[p] else multiset{}) + multiset{s.client}]
      ensures Balanced(s, w', h', was, p)
    {
    }

    /** The client logs in as the player it holds one more reference to. */
    lemma CountIn(s: Session, w: World, h: map<Player, multiset<Client>>, w': World, h': map<Player, multiset<Client>>,
                  p: Player)
      requires Balanced(s, w, h, null, p) && w'.players == w.players && p in w'.players
      requires s.client in w'.clients && w'.clients[s.client].registered && w'.clients[s.client].player == p
      requires h' == h[p := (if p in h then h[p] else multiset{}) + multiset{s.client}]
      ensures Balanced(s, w', h', p, null)
    {
    }

    /** A look-up of a known name is no operation; a new player is. */
    lemma RegisterDone(w: World, holders: map<Player, multiset<Client>>, p: Player, s: Session, trace: Trace)
      returns (acts: seq<Op>, after: Trace)
      requires jeux.Valid() && Good(w) && IsPower(jeux.pow10)
      requires this !in jeux.Repr && (forall t: Session :: t in sessions ==> t !in jeux.Repr)
      requires trace.Run(jeux.pow10) && trace.EndsIn(w) && DeparturesKnown(trace)
      requires ThreadsKnown(w, holders, s)
      requires jeux.View() == if p in w.players then w else Enroll(w, p)
      requires p !in w.players ==>
                 p.id == |w.players| && Sendable(p.name) && forall q :: q in w.players ==> q.name != p.name
      requires forall q :: q in jeux.books.holders ==> q in holders || q in jeux.View().players
      requires forall p: Player, c: Client {:trigger HeldFor(jeux.books.holders, p, c)} ::
                 c != s.client ==> HeldFor(jeux.books.holders, p, c) == HeldFor(holders, p, c)
      ensures ValidBut(after, s)
      ensures if acts == [] then after == trace
              else acts == [Register(p)] && after == trace.Then(Register(p), jeux.View(), 0)
    {
      acts := [];
      after := trace;
      if p in w.players {
        HoldersDone(holders, s, trace);
      } else {
        acts := [Register(p)];
        StepDone(w, holders, Register(p), 0, s, trace);
        after := trace.Then(Register(p), jeux.View(), 0);
      }
    }

    /** The extra reference is given up. */
    lemma CountDown(s: Session, w: World, h: map<Player, multiset<Client>>, h': map<Player, multiset<Client>>,
                    p: Player, was: Player?)
      requires Balanced(s, w, h, was, p) && p in w.players
      requires h' == h[p := (if p in h then h[p] else multiset{}) - multiset{s.client}]
      ensures Balanced(s, w, h', was, null)
    {
    }

    /** preg_register for a login, counted for the client. */
    method DoRegister(s: Session, name: string, ghost trace: Trace)
      returns (p: Player, ghost acts: seq<Op>, ghost after: Trace)
      requires Valid(trace) && s in sessions && Sendable(name)
      modifies jeux.Repr
      ensures ValidBut(after, s) && fresh(jeux.Repr - old(jeux.Repr))
      ensures p.name == name && p in jeux.preg.players
      ensures if acts == [] then after == trace
              else acts == [Register(p)] && after == trace.Then(Register(p), jeux.View(), 0)
      ensures jeux.Registered(s.client) && s.client.player == old(s.client.player)
      ensures s.newPlayer == null ==> (s.client.player != null <==> s.lost)
      ensures Balanced(s, jeux.View(), jeux.books.holders, s.client.player, p)
    {
      SessionFacts(s, trace);
      OtherClients(s, trace, null);
      ghost var w, holders := jeux.View(), jeux.books.holders;
      SetAside(s, w, holders);
      p := jeux.EnlistEntry(name, s.client);
      ClientHere(s.client);
      assert SessionsOk(w, holders, s) by {
        assert SessionKey(0);
        assert unchanged(this) && forall t :: t in sessions ==> unchanged(t);
      }
      acts, after := RegisterDone(w, holders, p, s, trace);
      CountUp(s, w, holders, jeux.View(), jeux.books.holders, p, old(s.client.player));
    }

    /** client_login in the middle of a login. */
    method DoAdmit(s: Session, p: Player, ghost trace: Trace) returns (r: int, ghost after: Trace)
      requires ValidBut(trace, s) && s in sessions && p in jeux.preg.players && jeux.Registered(s.client)
      requires Balanced(s, jeux.View(), jeux.books.holders, s.client.player, p)
      modifies jeux.Repr
      ensures ValidBut(after, s) && fresh(jeux.Repr - old(jeux.Repr))
        && after == trace.Then(LogIn(s.client, p), jeux.View(), r)
      ensures jeux.Registered(s.client) && p in jeux.preg.players
      ensures r == 0 ==> old(s.client.player) == null && Balanced(s, jeux.View(), jeux.books.holders, p, null)
      ensures r != 0 ==> r == -1 && s.client.player == old(s.client.player)
                         && Balanced(s, jeux.View(), jeux.books.holders, s.client.player, p)
    {
      OtherClients(s, trace, s);
      ClientHere(s.client);
      ghost var w, holders := jeux.View(), jeux.books.holders;
      r := jeux.LoginEntry(s.client, p);
      ClientHere(s.client);
      StepDone(w, holders, LogIn(s.client, p), r, s, trace);
      after := trace.Then(LogIn(s.client, p), jeux.View(), r);
      if r == 0 {
        CountIn(s, w, holders, jeux.View(), jeux.books.holders, p);
      }
    }

    /** player_unref in the middle of a login. */
    method DoRelease(s: Session, p: Player, ghost trace: Trace)
      requires ValidBut(trace, s) && s in sessions && p in jeux.preg.players && jeux.Registered(s.client)
      requires Balanced(s, jeux.View(), jeux.books.holders, s.client.player, p)
      modifies jeux.Repr
      ensures ValidBut(trace, s) && jeux.Repr == old(jeux.Repr)
      ensures jeux.Registered(s.client) && s.client.player == old(s.client.player)
      ensures Balanced(s, jeux.View(), jeux.books.holders, s.client.player, null)
    {
      OtherClients(s, trace, s);
      ClientHere(s.client);
      ghost var holders := jeux.books.holders;
      assert HeldFor(holders, p, s.client) >= if s.client.player == p then 2 else 1;
      ghost var w := jeux.View();
      jeux.ReleaseEntry(s.client, p);
      ClientHere(s.client);
      assert SessionsOk(w, holders, s) by {
        assert SessionKey(0);
        assert unchanged(this) && forall t :: t in sessions ==> unchanged(t);
      }
      HoldersDone(holders, s, trace);
      CountDown(s, w, holders, jeux.books.holders, p, old(s.client.player));
    }

    /** A refused login gives the reference back, and the thread is as it was. */
    method DoRefuse(s: Session, p: Player, ghost trace: Trace)
      requires ValidBut(trace, s) && s in sessions && p in jeux.preg.players && jeux.Registered(s.client)
      requires Balanced(s, jeux.View(), jeux.books.holders, s.client.player, p)
      requires s.newPlayer == null && (s.client.player != null <==> s.lost)
      modifies jeux.Repr
      ensures Valid(trace) && jeux.Repr == old(jeux.Repr)
    {
      DoRelease(s, p, trace);
      Resume(s, trace);
    }

    /** client_login, and what its caller does when it is refused. */
    method Admit(s: Session, p: Player, ghost trace: Trace)
      returns (player: Player?, ghost w: World, ghost after: Trace)
      requires ValidBut(trace, s) && s in sessions && p in jeux.preg.players && jeux.Registered(s.client)
      requires Balanced(s, jeux.View(), jeux.books.holders, s.client.player, p)
      requires s.newPlayer == null && (s.client.player != null <==> s.lost)
      modifies jeux.Repr
      ensures fresh(jeux.Repr - old(jeux.Repr))
      ensures after == trace.Then(LogIn(s.client, p), w, if player == null then -1 else 0)
      ensures player == null ==> Valid(after)
      ensures player != null ==> player == p && ValidBut(after, s) && s.client in jeux.books.clients && !s.lost
                                 && Balanced(s, jeux.View(), jeux.books.holders, player, null)
    {
      var status;
      status, after := DoAdmit(s, p, trace);
      w := jeux.View();
      player := p;
      if status == -1 {
        DoRefuse(s, p, after);
        player := null;
      }
    }

    /** login_handler up to its reply: the player, or null when refused. */
    method DoLogin(s: Session, q: Request, ghost trace: Trace)
      returns (player: Player?, ghost acts: seq<Op>, ghost r: int, ghost after: Trace)
      requires Valid(trace) && s in sessions && s.newPlayer == null && q.kind == LoginReq && q.payload != None
      modifies jeux.Repr
      ensures fresh(jeux.Repr - old(jeux.Repr))
      ensures Continues(trace, acts, r, [], after) && acts != [] && r == if player == null then -1 else 0
      ensures Does(s.client, q, acts)
      ensures player == null ==> Valid(after)
      ensures player != null ==> ValidBut(after, s) && s.client in jeux.books.clients && !s.lost
                                 && Balanced(s, jeux.View(), jeux.books.holders, player, null)
    {
      var p;
      ghost var mid;
      p, acts, mid := DoRegister(s, Text(q.payload), trace);
      ghost var w;
      player, w, after := Admit(s, p, mid);
      r := if player == null then -1 else 0;
      LoginContinues(trace, acts, mid, LogIn(s.client, p), w, r, after);
      acts := acts + [LogIn(s.client, p)];
    }

    // ---------------------------------------------------------------- connections

    /** A new connection: a client in the registry and a thread for it; nothing when the registry is full. */
    method Open(fd: int, ghost trace: Trace) returns (s: Session?, ghost after: Trace)
      requires Valid(trace)
      modifies `sessions, jeux.Repr
      ensures Valid(after) && fresh(jeux.Repr - old(jeux.Repr))
      ensures s == null <==> old(jeux.creg.len) == MAX_CLIENTS
      ensures s == null ==> after == trace && sessions == old(sessions)
      ensures s != null ==>
                && fresh(s) && s.client.fd == fd && s.newPlayer == null && sessions == old(sessions) + {s}
                && after == trace.Then(Connect(s.client), jeux.View(), 0)
    {
      ghost var w, holders := jeux.View(), jeux.books.holders;
      assert Good(w) && IsPower(jeux.pow10) by {
        assert Key(0);
      }
      var c := jeux.ConnectEntry(fd);
      after := trace;
      if c == null {
        HoldersDone(holders, null, trace);
        return null, trace;
      }
      StepDone(w, holders, Connect(c), 0, null, trace);
      after := trace.Then(Connect(c), jeux.View(), 0);
      assert c !in stray;
      s := new Session(c);
      Enter(s, after);
    }

    /** A thread whose view is right joins the others. */
    ghost method Join(s: Session, w: World, holders: map<Player, multiset<Client>>)
      requires ThreadsKnown(w, holders, null) && SessionOk(s, w, holders)
      requires s !in sessions && s.client !in stray && forall t :: t in sessions ==> t.client != s.client
      modifies `sessions
      ensures ThreadsKnown(w, holders, null) && sessions == old(sessions) + {s}
    {
      assert SessionKey(0);
      assert SessionsOk(w, holders, null);
      AccountedMore(w.players, holders, Served(), stray, s.client);
      assert forall t {:trigger SessionOk(t, w, holders)} :: t in sessions ==> SessionOk(t, w, holders);
      sessions := sessions + {s};
      assert Served() == old(Served()) + {s.client};
    }

    /** The thread of a new client joins the others. */
    ghost method Enter(s: Session, trace: Trace)
      requires Valid(trace) && s !in jeux.Repr && s !in sessions && s.newPlayer == null && !s.lost
      requires Balanced(s, jeux.View(), jeux.books.holders, null, null)
      requires s.client !in stray && forall t :: t in sessions ==> t.client != s.client
      modifies `sessions
      ensures Valid(trace) && sessions == old(sessions) + {s}
    {
      Join(s, jeux.View(), jeux.books.holders);
      assert jeux.Valid() && jeux.View() == old(jeux.View());
    }

    /** A client that is not logged in has no invitations, so the registry's reference is its last. */
    lemma LoggedOutFreed(w: World, c: Client)
      requires Good(w) && c in w.clients && w.clients[c].player == null
      ensures c !in Disconnect(w, c).clients
    {
      assert Key(0);
      assert Worlds.TableOk(w, c);
      forall k | 0 <= k < CAP
        ensures w.clients[c].slots[k] == null
      {
        assert SlotOk(w, c, k);
        assert w.clients[c].slots[k] != null ==> InvOk(w, w.clients[c].slots[k]);
      }
      OccupiedNone(w.clients[c].slots, null);
    }

    /** For the client, two references to this player are counted, if there is one, and none to any other. */
    ghost predicate LeftCounted(c: Client, but: Player?)
      reads jeux, jeux.Repr
      requires jeux.Wired()
    {
      forall q :: q in jeux.View().players ==> HeldFor(jeux.books.holders, q, c) == if q == but then 2 else 0
    }

    /** The end of a logged-in thread: its reference to the player, then the logout (src/server.c:198-201). */
    method DoLogout(s: Session, ghost trace: Trace) returns (ghost outs: seq<Outcome>, ghost after: Trace)
      requires Valid(trace) && s in sessions && s.newPlayer != null
      modifies jeux.Repr
      ensures ValidBut(after, s) && jeux.Repr == old(jeux.Repr)
        && after == trace.Then(LogOutOp(s.client, outs), jeux.View(), 0)
      ensures s.client in jeux.View().clients && jeux.Registered(s.client)
        && jeux.View().clients[s.client].player == null
      ensures LeftCounted(s.client, null)
    {
      SessionFacts(s, trace);
      OtherClients(s, trace, null);
      ghost var w, holders := jeux.View(), jeux.books.holders;
      SetAside(s, w, holders);
      outs := LeaveGame(s.client, s.newPlayer);
      after := LogoutDone(s, w, holders, outs, s.newPlayer, trace);
      ClientHere(s.client);
    }

    /** The two calls of the thread: its own reference, then the client's with the logout. */
    method LeaveGame(c: Client, p: Player) returns (ghost outs: seq<Outcome>)
      requires jeux.Valid() && jeux.Registered(c) && c in jeux.books.clients && c.player == p
      requires p in jeux.preg.players && HeldFor(jeux.books.holders, p, c) == 2
      modifies jeux.Repr
      ensures jeux.Valid() && jeux.Repr == old(jeux.Repr)
      ensures LogsOut(old(jeux.View()), c, outs, jeux.pow10, jeux.View())
      ensures p in old(jeux.books.holders)
        && jeux.books.holders == old(jeux.books.holders)[p := old(jeux.books.holders)[p] - multiset{c} - multiset{c}]
    {
      jeux.ReleaseEntry(c, p);
      ClientHere(c);
      var r;
      r, outs := jeux.LogoutEntry(c);
    }

    /** The logout is in the trace, and nothing is counted for the client any more. */
    lemma LogoutDone(s: Session, w: World, holders: map<Player, multiset<Client>>, outs: seq<Outcome>, p: Player,
                     trace: Trace) returns (after: Trace)
      requires jeux.Valid() && Good(w) && IsPower(jeux.pow10)
      requires this !in jeux.Repr && (forall s: Session :: s in sessions ==> s !in jeux.Repr)
      requires trace.Run(jeux.pow10) && trace.EndsIn(w) && DeparturesKnown(trace)
      requires ThreadsKnown(w, holders, s) && s in sessions
      requires forall t :: t in sessions && t != s ==> t.client != s.client
      requires LogsOut(w, s.client, outs, jeux.pow10, jeux.View()) && s.client in w.clients
        && w.clients[s.client].player == p
      requires p in holders
        && jeux.books.holders == holders[p := holders[p] - multiset{s.client} - multiset{s.client}]
      requires forall q :: q in w.players ==> HeldFor(holders, q, s.client) == if q == p then 2 else 0
      ensures ValidBut(after, s) && after == trace.Then(LogOutOp(s.client, outs), jeux.View(), 0)
      ensures s.client in jeux.View().clients && jeux.View().clients[s.client].registered
        && jeux.View().clients[s.client].player == null
      ensures LeftCounted(s.client, null)
    {
      StepDone(w, holders, LogOutOp(s.client, outs), 0, s, trace);
      after := trace.Then(LogOutOp(s.client, outs), jeux.View(), 0);
      LoggedOutHere(w, s.client, outs);
    }

    lemma LoggedOutHere(w: World, c: Client, outs: seq<Outcome>)
      requires jeux.Valid() && LogsOut(w, c, outs, jeux.pow10, jeux.View())
      ensures c in jeux.View().clients && jeux.View().clients[c].registered && jeux.View().clients[c].player == null
      ensures jeux.View().players == w.players
    {
      assert Key(0);
    }

    /** Taken out of the registry, a client is freed exactly when its table is empty. */
    lemma DisconnectedFreed(w: World, c: Client)
      requires c in w.clients
      ensures c in Disconnect(w, c).clients <==> Occupied(w.clients[c].slots, null) > 0
    {
    }

    /** A thread that was set aside goes; its client is stray if it still holds a player. */
    ghost method Part(s: Session, kept: Player?, w: World, holders: map<Player, multiset<Client>>)
      requires ThreadsKnown(w, holders, s) && s in sessions
      requires kept != null ==> kept in w.players
      requires forall q :: q in w.players ==> HeldFor(holders, q, s.client) == if q == kept then 2 else 0
      modifies `sessions, `stray
      ensures ThreadsKnown(w, holders, null)
      ensures sessions == old(sessions) - {s}
        && stray == if kept == null then old(stray) else old(stray)[s.client := kept]
    {
      assert SessionKey(0);
      assert SessionsOk(w, holders, s);
      AccountedLess(w.players, holders, Served(), stray, s.client, kept);
      assert forall t {:trigger SessionOk(t, w, holders)} :: t in sessions && t != s ==> SessionOk(t, w, holders);
      sessions := sessions - {s};
      stray := if kept == null then stray else stray[s.client := kept];
      assert Served() == old(Served()) - {s.client};
    }

    /** creg_unregister, and the end of the thread. */
    method DoUnregister(s: Session, ghost kept: Player?, ghost trace: Trace) returns (ghost after: Trace)
      requires ValidBut(trace, s) && s in sessions && jeux.Registered(s.client)
      requires LeftCounted(s.client, kept) && (kept != null ==> kept in jeux.View().players)
      requires s.client.player != null ==> kept != null
      modifies `sessions, `stray, jeux.Repr
      ensures Valid(after) && jeux.Repr == old(jeux.Repr)
      ensures sessions == old(sessions) - {s}
        && stray == if kept == null then old(stray) else old(stray)[s.client := kept]
      ensures s.client in old(jeux.View()).clients && jeux.View() == Disconnect(old(jeux.View()), s.client)
      ensures after == trace.Then(Unregister(s.client), jeux.View(), 0)
      ensures s.client.alive <==> s.client in jeux.View().clients
      ensures LeftCounted(s.client, kept)
    {
      OtherClients(s, trace, s);
      Exit(s, kept, trace);
      ClientHere(s.client);
      ghost var w, holders := jeux.View(), jeux.books.holders;
      jeux.DisconnectEntry(s.client);
      StepDone(w, holders, Unregister(s.client), 0, null, trace);
      after := trace.Then(Unregister(s.client), jeux.View(), 0);
    }

    /** A thread that was set aside goes. */
    ghost method Exit(s: Session, kept: Player?, trace: Trace)
      requires ValidBut(trace, s) && s in sessions && LeftCounted(s.client, kept)
        && (kept != null ==> kept in jeux.View().players)
      modifies `sessions, `stray
      ensures Valid(trace) && sessions == old(sessions) - {s}
      ensures stray == if kept == null then old(stray) else old(stray)[s.client := kept]
    {
      Part(s, kept, jeux.View(), jeux.books.holders);
      assert jeux.Valid() && jeux.View() == old(jeux.View());
    }

    /**
     The end of a connection (src/server.c:194-205).  The client is freed and nothing is counted for it
     any more, except that after a login whose acknowledgement was lost nobody logs it out: then both
     references to its player stay counted for ever, and the client stays if an invitation holds it.
     */
    method Close(s: Session, ghost trace: Trace) returns (ghost after: Trace)
      requires Valid(trace) && s in sessions
      modifies `sessions, `stray, jeux.Repr
      ensures Valid(after) && jeux.Repr == old(jeux.Repr) && sessions == old(sessions) - {s}
      ensures s.client.alive <==> old(s.lost) && old(s.client.len) > 0
      ensures s.client in jeux.View().clients <==> s.client.alive
      ensures LeftCounted(s.client, if old(s.lost) then old(s.client.player) else null)
      ensures old(s.lost) ==> old(s.client.player) != null && stray == old(stray)[s.client := old(s.client.player)]
      ensures !old(s.lost) ==> stray == old(stray)
      ensures |after.ops| > 0 && |after.ws| > 1 && after.ops[|after.ops| - 1] == Unregister(s.client)
      ensures s.client in after.ws[|after.ws| - 2].clients
      ensures after.ws[|after.ws| - 2].clients[s.client].player != null <==> old(s.lost)
    {
      SessionFacts(s, trace);
      ClientLength(s.client);
      after := trace;
      ghost var kept := if s.lost then s.client.player else null;
      if s.newPlayer != null {
        ghost var outs;
        outs, after := DoLogout(s, trace);
      } else {
        SetAside(s, jeux.View(), jeux.books.holders);
      }
      ghost var w := jeux.View();
      ClientHere(s.client);
      if w.clients[s.client].player == null {
        LoggedOutFreed(w, s.client);
      }
      DisconnectedFreed(w, s.client);
      after := DoUnregister(s, kept, after);
    }

    // ---------------------------------------------------------------- requests

    /** A thread's view of its client is settled again. */
    method Settle(s: Session, player: Player, acknowledged: bool, ghost w: World, ghost holders: map<Player,
                  multiset<Client>>)
      requires ThreadsKnown(w, holders, s) && s in sessions && s.newPlayer == null && !s.lost
      requires Balanced(s, w, holders, player, null)
      modifies s`newPlayer, s`lost
      ensures ThreadsKnown(w, holders, null)
      ensures if acknowledged then s.newPlayer == player && !s.lost else s.newPlayer == null && s.lost
    {
      assert SessionKey(0);
      assert SessionsOk(w, holders, s);
      assert forall t {:trigger SessionOk(t, w, holders)} :: t in sessions && t != s ==> SessionOk(t, w, holders);
      s.newPlayer := if acknowledged then player else null;
      s.lost := !acknowledged;
      assert SessionOk(s, w, holders);
      assert forall t {:trigger SessionOk(t, w, holders)} :: t in sessions && t != s ==> old(SessionOk(t, w, holders));
    }

    /** The end of a login: the thread keeps the player if it could acknowledge, and loses track of it otherwise. */
    method KeepPlayer(s: Session, player: Player, acknowledged: bool, ghost trace: Trace)
      requires ValidBut(trace, s) && s in sessions && s.newPlayer == null && !s.lost
      requires Balanced(s, jeux.View(), jeux.books.holders, player, null)
      modifies s`newPlayer, s`lost
      ensures Valid(trace)
      ensures if acknowledged then s.newPlayer == player && !s.lost else s.newPlayer == null && s.lost
    {
      Settle(s, player, acknowledged, jeux.View(), jeux.books.holders);
      assert jeux.Valid() && jeux.View() == old(jeux.View());
    }

    /** client_send_nack. */
    method Refuse(s: Session, ghost trace: Trace) returns (ghost replies: seq<Op>, ghost after: Trace)
      requires Valid(trace) && s in sessions
      modifies jeux.Repr
      ensures Valid(after) && fresh(jeux.Repr - old(jeux.Repr)) && after.ops == trace.ops + replies
        && trace.rs <= after.rs
      ensures Refusal(s.client, replies)
    {
      SessionFacts(s, trace);
      var status;
      ghost var op;
      status, op, after := DoReply(s, NackPkt, 0, "", Nothing, trace, null);
      replies := [op];
    }

    /** client_send_ack. */
    method Acknowledge(s: Session, id: int, data: string, ghost payload: Payload, ghost trace: Trace)
      returns (status: int, ghost op: Op, ghost after: Trace)
      requires Valid(trace) && s in sessions && Spells(payload, data)
      modifies jeux.Repr
      ensures Valid(after) && fresh(jeux.Repr - old(jeux.Repr)) && after.ops == trace.ops + [op] && trace.rs <= after.rs
      ensures (status == 0 || status == -1) && op == Reply(s.client, AckPkt, id, payload, status == 0)
    {
      SessionFacts(s, trace);
      status, op, after := DoReply(s, AckPkt, id, data, payload, trace, null);
    }

    /** One acknowledgement or, when there is an error to report or the acknowledgement fails, one NACK. */
    method Conclude(s: Session, r: int, data: string, ghost payload: Payload, ghost trace: Trace)
      returns (ghost replies: seq<Op>, ghost after: Trace)
      requires Valid(trace) && s in sessions && Spells(payload, data)
      modifies jeux.Repr
      ensures Valid(after) && fresh(jeux.Repr - old(jeux.Repr)) && after.ops == trace.ops + replies
        && trace.rs <= after.rs
      ensures r == -1 ==> Refusal(s.client, replies)
      ensures r != -1 ==>
                && |replies| >= 1 && replies[0].Reply?
                && replies[0] == Reply(s.client, AckPkt, 0, payload, replies[0].ok)
                && if replies[0].ok then |replies| == 1 else Refusal(s.client, replies[1..])
    {
      if r == -1 {
        replies, after := Refuse(s, trace);
      } else {
        var status;
        ghost var op, rest;
        status, op, after := Acknowledge(s, 0, data, payload, trace);
        replies := [op];
        if status == -1 {
          rest, after := Refuse(s, after);
          replies := replies + rest;
        }
      }
    }

    /** The reply to an invitation carries its id; its transmission is not checked (src/server.c:63-69, 235-237). */
    method ReplyInvite(s: Session, r: int, ghost trace: Trace) returns (ghost replies: seq<Op>, ghost after: Trace)
      requires Valid(trace) && s in sessions
      modifies jeux.Repr
      ensures Valid(after) && fresh(jeux.Repr - old(jeux.Repr)) && after.ops == trace.ops + replies
        && trace.rs <= after.rs
      ensures r == -1 ==> Refusal(s.client, replies)
      ensures r != -1 ==>
                && |replies| == 1 && replies[0].Reply?
                && replies[0] == Reply(s.client, AckPkt, r, Nothing, replies[0].ok)
    {
      if r == -1 {
        replies, after := Refuse(s, trace);
      } else {
        var status;
        ghost var op;
        status, op, after := Acknowledge(s, r, "", Nothing, trace);
        replies := [op];
      }
    }

    /** invite_handler and the reply of its caller. */
    method HandleInvite(s: Session, q: Request, ghost trace: Trace)
      returns (ghost acts: seq<Op>, ghost r: int, ghost replies: seq<Op>, ghost after: Trace)
      requires Valid(trace) && s in sessions && s.newPlayer != null && q.kind == InviteReq
      modifies jeux.Repr
      ensures Valid(after) && fresh(jeux.Repr - old(jeux.Repr)) && Continues(trace, acts, r, replies, after)
      ensures Answers(s.client, true, q, acts, r, replies)
    {
      acts := [];
      after := trace;
      var status := -1;
      ghost var op;
      if q.payload != None {
        status, op, after := DoInvite(s, Text(q.payload), q.role, trace);
        acts := [op];
      }
      r := status;
      replies, after := ReplyInvite(s, status, after);
    }

    /** The operation of a revoke, decline, accept, move or resign request, and the data to acknowledge it with. */
    method Perform(s: Session, q: Request, ghost trace: Trace)
      returns (status: int, data: string, ghost payload: Payload, ghost op: Op, ghost after: Trace)
      requires Valid(trace) && s in sessions && q.id < 256 && Retries(q.kind)
      modifies jeux.Repr
      ensures Valid(after) && fresh(jeux.Repr - old(jeux.Repr)) && after == trace.Then(op, jeux.View(), status)
      ensures Does(s.client, q, [op]) && Spells(payload, data)
      ensures payload == if op.AcceptOp? && op.told.Some? then op.told.value else Nothing
    {
      data, payload := "", Nothing;
      match q.kind {
        case RevokeReq =>
          status, op, after := DoWithdraw(s, q.id, true, trace);
        case DeclineReq =>
          status, op, after := DoWithdraw(s, q.id, false, trace);
        case AcceptReq =>
          var strp;
          status, strp, op, after := DoAccept(s, q.id, trace);
          if strp.Some? {
            data := strp.value;
            payload := op.told.value;
          }
        case MoveReq =>
          status, op, after := DoMove(s, q.id, Text(q.payload), trace);
        case ResignReq =>
          status, op, after := DoResign(s, q.id, trace);
      }
    }

    /** The handlers of revoke, decline, accept, move and resign, and the reply of their caller. */
    method HandleEntry(s: Session, q: Request, ghost trace: Trace)
      returns (ghost acts: seq<Op>, ghost r: int, ghost replies: seq<Op>, ghost after: Trace)
      requires Valid(trace) && s in sessions && q.id < 256 && Retries(q.kind)
      modifies jeux.Repr
      ensures Valid(after) && fresh(jeux.Repr - old(jeux.Repr)) && Continues(trace, acts, r, replies, after)
      ensures Answers(s.client, true, q, acts, r, replies)
    {
      ghost var op, payload, mid;
      var status, data;
      status, data, payload, op, mid := Perform(s, q, trace);
      acts, r := [op], status;
      replies, after := Conclude(s, status, data, payload, mid);
      ReplyContinues(trace, acts, r, mid, replies, after);
    }

    /** The end of a successful login (src/server.c:168-172). */
    method EndLogin(s: Session, player: Player, ghost trace: Trace) returns (ghost replies: seq<Op>, ghost after: Trace)
      requires ValidBut(trace, s) && s in sessions && s.newPlayer == null && !s.lost && s.client in jeux.books.clients
      requires Balanced(s, jeux.View(), jeux.books.holders, player, null)
      modifies s`newPlayer, s`lost, jeux.Repr
      ensures Valid(after) && fresh(jeux.Repr - old(jeux.Repr)) && after.ops == trace.ops + replies
        && trace.rs <= after.rs
      ensures |replies| == 1 && replies[0].Reply? && replies[0] == Reply(s.client, AckPkt, 0, Nothing, replies[0].ok)
      ensures if replies[0].ok then s.newPlayer == player && !s.lost else s.newPlayer == null && s.lost
    {
      var status;
      ghost var op;
      status, op, after := DoReply(s, AckPkt, 0, "", Nothing, trace, s);
      replies := [op];
      KeepPlayer(s, player, status == 0, after);
    }

    /** login_handler. */
    method HandleLogin(s: Session, q: Request, ghost trace: Trace)
      returns (ghost acts: seq<Op>, ghost r: int, ghost replies: seq<Op>, ghost after: Trace)
      requires Valid(trace) && s in sessions && s.newPlayer == null && q.kind == LoginReq
      modifies s`newPlayer, s`lost, jeux.Repr
      ensures Valid(after) && fresh(jeux.Repr - old(jeux.Repr)) && Continues(trace, acts, r, replies, after)
      ensures Answers(s.client, false, q, acts, r, replies)
      ensures s.newPlayer != null <==> r == 0 && replies[0].ok
      ensures s.lost <==> old(s.lost) || (r == 0 && !replies[0].ok)
      ensures r == 0 || r == -1
    {
      acts, r := [], -1;
      after := trace;
      var player := null;
      if q.payload != None {
        player, acts, r, after := DoLogin(s, q, trace);
      }
      ghost var mid := after;
      if player == null {
        replies, after := Refuse(s, after);
      } else {
        replies, after := EndLogin(s, player, after);
      }
      ReplyContinues(trace, acts, r, mid, replies, after);
      LoginAnswered(s.client, q, acts, r, replies);
    }

    /** user_handler. */
    method HandleUsers(s: Session, ghost trace: Trace) returns (ghost replies: seq<Op>, ghost after: Trace)
      requires Valid(trace) && s in sessions
      modifies jeux.Repr
      ensures Valid(after) && fresh(jeux.Repr - old(jeux.Repr)) && after.ops == trace.ops + replies
        && |trace.rs| <= |after.rs|
      ensures |replies| == 1 && replies[0].Reply?
        && replies[0] == Reply(s.client, AckPkt, 0, replies[0].payload, replies[0].ok)
      ensures replies[0].payload.Listing? && Roster(old(jeux.View()), replies[0].payload.lines)
    {
      ghost var w, holders := jeux.View(), jeux.books.holders;
      var text;
      ghost var lines;
      text, lines := jeux.UsersEntry();
      HoldersDone(holders, null, trace);
      var status;
      ghost var op;
      status, op, after := Acknowledge(s, 0, text, Listing(lines), trace);
      replies := [op];
    }

    /** The requests of a client that is logged in (src/server.c:225-285). */
    method HandleOther(s: Session, q: Request, ghost trace: Trace)
      returns (ghost acts: seq<Op>, ghost r: int, ghost replies: seq<Op>, ghost after: Trace)
      requires Valid(trace) && s in sessions && q.id < 256 && s.newPlayer != null && q.kind != LoginReq
      modifies jeux.Repr
      ensures Valid(after) && fresh(jeux.Repr - old(jeux.Repr)) && Continues(trace, acts, r, replies, after)
      ensures Answers(s.client, true, q, acts, r, replies)
      ensures q.kind == UsersReq ==> Roster(old(jeux.View()), replies[0].payload.lines)
    {
      acts, r, replies, after := [], -1, [], trace;
      if q.kind == UsersReq {
        r := 0;
        replies, after := HandleUsers(s, trace);
      } else if q.kind == InviteReq {
        acts, r, replies, after := HandleInvite(s, q, trace);
      } else if Retries(q.kind) {
        acts, r, replies, after := HandleEntry(s, q, trace);
      }
    }

    /** One turn of the loop of jeux_client_service (src/server.c:207-288). */
    method Handle(s: Session, q: Request, ghost trace: Trace)
      returns (ghost acts: seq<Op>, ghost r: int, ghost replies: seq<Op>, ghost after: Trace)
      requires Valid(trace) && s in sessions && q.id < 256
      modifies s`newPlayer, s`lost, jeux.Repr
      ensures Valid(after) && fresh(jeux.Repr - old(jeux.Repr)) && Continues(trace, acts, r, replies, after)
      ensures Answers(s.client, old(s.newPlayer) != null, q, acts, r, replies)
      ensures q.kind == UsersReq && old(s.newPlayer) != null ==> Roster(old(jeux.View()), replies[0].payload.lines)
      ensures s.newPlayer != null <==> old(s.newPlayer) != null || (q.kind == LoginReq && r == 0 && replies[0].ok)
    {
      if q.kind == LoginReq && s.newPlayer == null {
        acts, r, replies, after := HandleLogin(s, q, trace);
      } else if q.kind != LoginReq && s.newPlayer != null {
        acts, r, replies, after := HandleOther(s, q, trace);
      } else {
        acts, r := [], -1;
        replies, after := Refuse(s, trace);
      }
    }
  }
}
