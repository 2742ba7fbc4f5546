/**
 The operations of src/client.c that reach across the shared state: two slot tables, an invitation,
 its game, and the ratings of two players.  Each is one step here, with the sequence of calls, the
 reference counting and the early returns of the source; each is proved to compute the function of
 module Worlds of the same purpose, and to leave every reference count exact.
 */
module Server {
  import opened Roles
  import opened Sealing
  import opened Slots
  import opened TicTacToe
  import opened Games
  import opened Elo
  import opened Players
  import opened Lobby
  import opened Registry
  import opened Operations
  import opened Worlds
  import opened WorldKept
  import opened Logout

  /** A successful revocation (as source) or declination (as target): what happened, in one value. */
  datatype Withdrawal = Withdrawal(inv: Invitation, asSource: bool, ok: bool) {
    function Caller(): Client {
      if asSource then inv.src else inv.target
    }
  }

  /** An attempt to invite: the slots of the invitation, if one was made, and whether the target was told. */
  datatype Asking = Asking(source: Client, target: Client, name: string, role: Role, slot: nat, targetSlot: nat,
      ok: bool) {
    function TargetsRole(): Role {
      TargetRole(role)
    }

    function SourcesRole(): Role {
      Opponent(TargetRole(role))
    }
  }

  /** What came of an invitation by user name: the user's client, or null; whether an invitation was made. */
  datatype Answer = Answer(source: Client, target: Client?, name: string, role: Role, made: bool, slot: nat,
      targetSlot: nat, ok: bool, r: int) {
    function Try(): Asking
      requires target != null
    {
      Asking(source, target, name, role, slot, targetSlot, ok)
    }
  }

  /** A counted reference to the player of this number, held for the client. */
  datatype Holding = Holding(client: Client, id: nat)

  /** A counted reference given up, by the client's thread or (`out`) by the client as it logs out. */
  datatype Dropping = Dropping(client: Client, id: nat, out: bool)

  /** A client whose table gained an invitation in a slot. */
  datatype Gain = Gain(c: Client, k: nat)

  /** A successful acceptance. */
  datatype Opening = Opening(inv: Invitation, ok: bool)

  /** A move that was played: by whom, the two players, the position it led to, and the packets. */
  datatype Turn = Turn(inv: Invitation, client: Client, move: string, first: Player, second: Player, g: Ttt,
      packets: seq<Packet>) {
    function End(): Ending {
      Ending(inv, client, first, second, g.winner, packets)
    }

    function Outcomes(): seq<bool> {
      if |packets| == 3 then [packets[0].ok, packets[1].ok, packets[2].ok]
      else if |packets| == 1 then [packets[0].ok, false, false]
      else []
    }
  }

  /** How a game ended: the invitation, who made the ending call, the two players, the winner, the packets. */
  datatype Ending = Ending(inv: Invitation, client: Client, first: Player, second: Player, winner: Role,
      packets: seq<Packet>)

  /**
   The clients and invitations that are allocated; for whom counted references to a player are held,
   beside the registry's (a logged-in client's own, and its service thread's); everything sent, and every
   result posted.
   */
  datatype Books = Books(clients: set<Client>, invs: set<Invitation>, holders: map<Player, multiset<Client>>,
      log: seq<Sent>, posts: seq<Posted>)

  class Jeux {
    const creg: ClientRegistry
    const preg: PlayerRegistry
    const pow10: real -> real
    ghost var books: Books
    ghost var Repr: set<object>

    ghost predicate Wired()
      reads this, Repr
    {
      && this in Repr && creg in Repr && creg.arr in Repr && preg in Repr && preg.arr in Repr
      && (forall p :: p in preg.players ==> p in Repr)
      && (forall c :: c in books.clients ==>
           c in Repr && c.lst in Repr && (c.player != null ==> c.player in preg.players))
      && (forall i :: i in books.invs ==> i in Repr && (i.game != null ==> i.game in Repr && i.game.board in Repr))
    }

    ghost function ClientView(c: Client): ClientV
      reads c, c.lst
    {
      ClientV(c.player, c.lst[..], c.peak, c.regSlot != -1)
    }

    ghost function GameView(g: Game?): Option<Ttt>
      reads g
    {
      if g == null then None else Some(g.abs)
    }

    ghost function InvView(i: Invitation): InvV
      reads i, i.GameSet()
    {
      InvV(i.srcSlot, i.targetSlot, GameView(i.game))
    }

    /** The state these objects stand for. */
    ghost function View(): World
      reads this, Repr
      requires Wired()
    {
      World(map c | c in books.clients :: ClientView(c), map i | i in books.invs :: InvView(i),
                  preg.players, preg.Ratings(), books.log, books.posts)
    }

    /** No two clients share a table, and no two invitations share a game or a board. */
    ghost predicate Apart()
      reads this, Repr
      requires Wired()
    {
      && (forall c, d :: c in books.clients && d in books.clients && c != d ==> c.lst != d.lst)
      && (forall i, j :: i in books.invs && j in books.invs && i != j && i.game != null && j.game != null ==>
                           i.game != j.game && i.game.board != j.game.board)
    }

    /** A client's count is exact: one for the registry, one for each invitation in its table. */
    ghost predicate ClientCounted(c: Client)
      reads this, Repr
      requires Wired() && c in books.clients
    {
      && c.alive
      && c.TableOk()
      && c.refCount == (if c.regSlot == -1 then 0 else 1) + c.len
      && (c.player != null ==> c in HoldersOf(c.player))
    }

    /** An invitation's count is exact: its two slots.  Its state says whether it has a game, counted once. */
    ghost predicate InvCounted(i: Invitation)
      reads this, Repr
      requires Wired() && i in books.invs
    {
      && i.alive
      && i.refCount == 2
      && (i.game == null ==> i.state == Open)
      && (i.game != null ==> i.state == Accepted && i.game.alive && i.game.refCount == 1 && i.game.Valid())
    }

    ghost function HoldersOf(p: Player): multiset<Client>
      reads `books
    {
      if p in books.holders then books.holders[p] else multiset{}
    }

    /** A player's count is exact: one for the registry, one for each logged-in client and service thread. */
    ghost predicate PlayerCounted(p: Player)
      reads `books, p
    {
      p.alive && p.refCount == 1 + |HoldersOf(p)|
    }

    ghost predicate Counted()
      reads this, Repr
      requires Wired()
    {
      && (forall c {:trigger ClientCounted(c)} :: c in books.clients ==> ClientCounted(c))
      && (forall i {:trigger InvCounted(i)} :: i in books.invs ==> InvCounted(i))
      && (forall p {:trigger PlayerCounted(p)} :: p in preg.players ==> PlayerCounted(p))
    }

    ghost predicate RegistryOk()
      reads this, Repr
      requires Wired()
    {
      && creg.arr.Length == MAX_CLIENTS
      && creg.len == Occupied(creg.arr[..], null)
      && (forall k :: 0 <= k < MAX_CLIENTS && creg.arr[k] != null ==>
           creg.arr[k] in books.clients && creg.arr[k].regSlot == k)
      && (forall c :: c in books.clients && c.regSlot != -1 ==>
           0 <= c.regSlot < MAX_CLIENTS && creg.arr[c.regSlot] == c)
    }

    /** An invitation owns the game. */
    ghost predicate Owned(g: Game)
      reads this, Repr
    {
      exists i :: i in books.invs && i in Repr && i.game == g
    }

    /** The object is allocated exactly as long as the books know it, and a game only while an invitation owns it. */
    ghost predicate Kept(o: object)
      reads this, Repr, o
    {
      && (o is Client ==> ((o as Client).alive <==> o as Client in books.clients))
      && (o is Invitation ==> ((o as Invitation).alive <==> o as Invitation in books.invs))
      && (o is Game && (o as Game).alive ==> Owned(o as Game))
    }

    /** No object that was ever made stays allocated without a reason: Repr has them all. */
    ghost predicate NothingLeaked()
      reads this, Repr
    {
      forall o: object {:trigger Kept(o)} :: o in Repr ==> Kept(o)
    }

    /** Nobody was freed, and no invitation came, went or changed its game. */
    twostate predicate KeepsAll()
      reads this, Repr
    {
      && old(Repr) <= Repr && books.clients == old(books.clients) && books.invs == old(books.invs)
      && (forall o: object :: o in Repr && o !in old(Repr) ==> !(o is Client) && !(o is Invitation) && !(o is Game))
      && (forall c: Client :: c in old(Repr) ==> c.alive == old(c.alive))
      && (forall i: Invitation :: i in old(Repr) ==> i.alive == old(i.alive) && i.game == old(i.game))
      && (forall g: Game :: g in old(Repr) ==> g.alive == old(g.alive))
    }

    twostate lemma KeptAll()
      requires old(NothingLeaked()) && KeepsAll()
      ensures NothingLeaked()
    {
      forall o: object | o in Repr
        ensures Kept(o)
      {
        assert o in old(Repr) ==> old(Kept(o));
      }
    }

    ghost predicate Registered(c: Client)
      reads this, c
    {
      c in books.clients && c.regSlot != -1
    }

    /** Everything that holds between operations. */
    ghost predicate Invariant()
      reads this, Repr
      requires Wired()
    {
      && Apart()
      && IsPower(pow10)
      && preg.Valid()
      && Counted()
      && RegistryOk()
      && NothingLeaked()
    }

    ghost predicate Valid()
      reads this, Repr
      ensures Valid() ==> this in Repr && Wired() && Good(View())
    {
      && this in Repr
      && Wired()
      && Good(View())
      && forall k {:trigger Key(k)} :: Key(k) ==> Invariant()
    }

    lemma NothingYet()
      requires Repr == {this, creg, creg.arr, preg, preg.arr}
      ensures NothingLeaked()
    {
    }

    constructor (pow10: real -> real)
      requires IsPower(pow10)
      ensures Valid() && fresh(Repr)
      ensures View() == EmptyWorld() && books.holders == map[]
    {
      this.pow10 := pow10;
      creg := new ClientRegistry();
      preg := new PlayerRegistry();
      books := Books({}, {}, map[], [], []);
      new;
      Repr := {this, creg, creg.arr, preg, preg.arr};
      NothingYet();
      assert View() == EmptyWorld();
      EmptyInv();
    }

    // ---------------------------------------------------------------- what Valid says of one object

    lemma ClientFacts(c: Client)
      requires Valid() && c in books.clients
      ensures c in Repr && c.lst in Repr && c.alive && c.TableOk()
      ensures c.refCount == (if c.regSlot == -1 then 0 else 1) + c.len
      ensures c in View().clients && View().clients[c] == ClientView(c)
      ensures c.player != null ==>
        c.player in preg.players && c.player in Repr && c.player.alive && c in HoldersOf(c.player)
                                   && c.player.refCount == 1 + |HoldersOf(c.player)|
      ensures forall d :: d in books.clients && d != c ==> d.lst != c.lst
    {
      assert Key(0);
      assert ClientCounted(c);
      if c.player != null {
        assert PlayerCounted(c.player);
      }
    }

    lemma SlotFacts(c: Client, k: nat)
      requires Valid() && c in books.clients && k < CAP
      ensures c.lst.Length == CAP
      ensures c.lst[k] != null ==> c.lst[k] in books.invs
      ensures c.lst[k] != null ==>
        (c.lst[k].src == c && c.lst[k].srcSlot == k) || (c.lst[k].target == c && c.lst[k].targetSlot == k)
    {
      assert Key(0);
      var w := View();
      assert c in w.clients && Worlds.TableOk(w, c) && SlotOk(w, c, k);
      assert w.clients[c].slots[k] == c.lst[k];
    }

    lemma InvitationFacts(i: Invitation)
      requires Valid() && i in books.invs
      ensures i in Repr && i.alive && i.refCount == 2
      ensures i.src != i.target && i.src in books.clients && i.target in books.clients && i.src.lst != i.target.lst
      ensures i.srcRole != NullRole && i.targetRole != NullRole && i.srcRole != i.targetRole
      ensures i.srcSlot < CAP && i.src.lst.Length == CAP && i.src.lst[i.srcSlot] == i
      ensures i.targetSlot < CAP && i.target.lst.Length == CAP && i.target.lst[i.targetSlot] == i
      ensures i.src.len >= 1 && i.target.len >= 1
      ensures i.src.player != null && i.target.player != null && i.src.player != i.target.player
      ensures i in View().invs && View().invs[i] == InvView(i)
      ensures i.state == if i.game == null then Open else Accepted
    {
      assert Key(0);
      var w := View();
      assert i in w.invs && InvOk(w, i) && InvCounted(i);
      assert ClientCounted(i.src) && ClientCounted(i.target);
      assert Worlds.TableOk(w, i.src) && Worlds.TableOk(w, i.target);
      OccupiedBounds(i.src.lst[..], null);
      OccupiedBounds(i.target.lst[..], null);
      assert i.src.lst[..][i.srcSlot] == i && i.target.lst[..][i.targetSlot] == i;
    }

    lemma GameFacts(i: Invitation)
      requires Valid() && i in books.invs && i.game != null
      ensures i.game in Repr && i.game.board in Repr && i.game.alive && i.game.refCount == 1 && i.game.Valid()
        && !i.game.abs.over
      ensures forall j :: j in books.invs && j != i ==>
        j.game != i.game && (j.game != null ==> j.game.board != i.game.board)
    {
      assert Key(0);
      assert InvCounted(i) && Worlds.GameOk(View(), i);
    }

    /** Each party's table holds the invitation in its one slot only. */
    lemma PartyFacts(i: Invitation)
      requires Valid() && i in books.invs
      ensures OnlyIn(i.src, i, i.srcSlot) && OnlyIn(i.target, i, i.targetSlot)
    {
      InvitationFacts(i);
      forall j | 0 <= j < CAP
        ensures i.src.lst[j] == i <==> j == i.srcSlot
        ensures i.target.lst[j] == i <==> j == i.targetSlot
      {
        SlotFacts(i.src, j);
        SlotFacts(i.target, j);
      }
    }

    /**
     Every count is exact, and nothing counted has been freed: a client's references are the registry's
     and one for each invitation in its table; an invitation's are its two slots; a game's is its
     invitation's; a player's are the registry's and those held for clients.
     */
    lemma CountsAreExact()
      requires Valid()
      ensures forall c :: c in books.clients ==>
                c.alive && c.refCount == (if c.regSlot == -1 then 0 else 1) + Occupied(c.lst[..], null)
      ensures forall i :: i in books.invs ==>
                i.alive && i.refCount == 2 && (i.game != null ==> i.game.alive && i.game.refCount == 1)
      ensures forall p :: p in preg.players ==> p.alive && p.refCount == 1 + |HoldersOf(p)|
    {
      assert Key(0);
      forall c | c in books.clients
        ensures c.alive && c.refCount == (if c.regSlot == -1 then 0 else 1) + Occupied(c.lst[..], null)
      {
        assert ClientCounted(c);
      }
      forall i | i in books.invs
        ensures i.alive && i.refCount == 2 && (i.game != null ==> i.game.alive && i.game.refCount == 1)
      {
        assert InvCounted(i);
      }
      forall p | p in preg.players
        ensures p.alive && p.refCount == 1 + |HoldersOf(p)|
      {
        assert PlayerCounted(p);
      }
    }

    /**
     Nothing leaks: of all clients, invitations and games ever made, those are allocated that are still
     needed: a client registered or held by an invitation, an invitation in its two slots, a game whose
     invitation is.
     */
    lemma AllocatedForAReason(o: object)
      requires Valid() && o in Repr
      ensures o is Client ==> ((o as Client).alive <==> o as Client in books.clients)
      ensures o is Client && (o as Client).alive ==>
        (o as Client).regSlot != -1 || Occupied((o as Client).lst[..], null) > 0
      ensures o is Invitation ==> ((o as Invitation).alive <==> o as Invitation in books.invs)
      ensures o is Game ==> ((o as Game).alive <==> exists i :: i in books.invs && i.game == o)
    {
      assert Key(0);
      assert Kept(o);
      if o is Client && (o as Client).alive {
        assert ClientCounted(o as Client) && Worlds.TableOk(View(), o as Client);
        assert View().clients[o as Client] == ClientView(o as Client);
      }
      if o is Game && exists i :: i in books.invs && i.game == o {
        ghost var i :| i in books.invs && i.game == o;
        assert InvCounted(i);
      }
    }

    /** The objects' tables: an allocated invitation is in one slot of its source's, one of its target's, no other. */
    lemma TwoSlotsEach(i: Invitation, c: Client, k: nat)
      requires Valid() && c in books.clients && k < CAP
      ensures c.lst.Length == CAP
      ensures c.lst[k] == i <==>
        i in books.invs && ((c == i.src && k == i.srcSlot) || (c == i.target && k == i.targetSlot))
    {
      SlotFacts(c, k);
      if i in books.invs {
        InvitationFacts(i);
      }
    }

    // ---------------------------------------------------------------- an invitation leaves

    /** The objects a leaving invitation touches; its game's result may also change two ratings. */
    ghost predicate Touches(inv: Invitation, o: object)
      reads inv, inv.src, inv.target
    {
      || o == this || o == inv || o == inv.src || o == inv.target || o == inv.src.lst || o == inv.target.lst
      || (inv.game != null && (o == inv.game || o == inv.game.board || o == inv.src.player || o == inv.target.player))
    }

    ghost function Freed(c: Client): set<Client>
      reads c`refCount
    {
      if c.refCount == 0 then {c} else {}
    }

    /**
     The invitation is gone from its two tables and freed, and so is a party if that was its last
     reference; nothing else changed but two players' ratings.  This is about all objects but this one.
     */
    twostate predicate Left(inv: Invitation)
      reads `Repr, Repr - {this}, inv, inv.src, inv.target, inv.src.lst, inv.target.lst
    {
      && Repr == old(Repr)
      && inv.src.Left(old(inv.srcSlot)) && inv.target.Left(old(inv.targetSlot))
      && !inv.alive && (old(inv.game) != null && old(inv.game) in Repr - {this} ==> !old(inv.game).alive)
      && (forall o: object :: o in old(Repr) && o != this && !old(Touches(inv, o)) ==> unchanged(o))
      && (old(inv.game) != null && old(inv.src.player) in Repr - {this} ==> Held(old(inv.src.player)))
      && (old(inv.game) != null && old(inv.target.player) in Repr - {this} ==> Held(old(inv.target.player)))
    }

    /** The same, with the books kept: the log and the posts may have grown. */
    twostate predicate Detached(inv: Invitation)
      reads this, Repr, inv, inv.src, inv.target, inv.src.lst, inv.target.lst
    {
      && Left(inv)
      && books.holders == old(books.holders)
      && books.invs == old(books.invs) - {inv}
      && books.clients == old(books.clients) - Freed(inv.src) - Freed(inv.target)
    }

    ghost predicate Placed(inv: Invitation)
      reads inv, inv.src.lst, inv.target.lst
    {
      && inv.src != inv.target
      && inv.srcSlot < inv.src.lst.Length && inv.src.lst[inv.srcSlot] == inv
      && inv.targetSlot < inv.target.lst.Length && inv.target.lst[inv.targetSlot] == inv
    }

    /** The invitation stands between two clients of ours, and what it touches belongs to nobody else. */
    ghost predicate Isolated(inv: Invitation)
      reads this, Repr, inv, inv.src, inv.target, inv.src.lst, inv.target.lst
    {
      && Wired()
      && inv in books.invs && inv.src in books.clients && inv.target in books.clients && Placed(inv)
      && (forall c: Client :: c in books.clients && c != inv.src && c != inv.target ==>
           !Touches(inv, c) && !Touches(inv, c.lst))
      && (forall i: Invitation :: i in books.invs && i != inv ==>
            !Touches(inv, i) && (i.game != null ==> !Touches(inv, i.game) && !Touches(inv, i.game.board)))
      && !Touches(inv, creg) && !Touches(inv, creg.arr) && !Touches(inv, preg) && !Touches(inv, preg.arr)
    }

    lemma NobodyShares(inv: Invitation)
      requires Valid() && inv in books.invs
      ensures forall c :: c in books.clients && c != inv.src && c != inv.target ==>
        c.lst != inv.src.lst && c.lst != inv.target.lst
      ensures forall i :: i in books.invs && i != inv && i.game != null && inv.game != null ==>
        i.game != inv.game && i.game.board != inv.game.board
    {
      InvitationFacts(inv);
      assert Key(0);
    }

    lemma IsolatedFacts(inv: Invitation)
      requires Valid() && inv in books.invs
      ensures Isolated(inv)
    {
      InvitationFacts(inv);
      NobodyShares(inv);
    }

    /** Everybody else's objects are as they were. */
    twostate lemma DetachedOthers(inv: Invitation)
      requires old(Isolated(inv)) && Detached(inv)
      ensures forall c :: c in old(books.clients) && c != inv.src && c != inv.target ==>
        unchanged(c) && unchanged(c.lst)
      ensures forall i :: i in old(books.invs) && i != inv ==>
        unchanged(i) && (i.game != null ==> unchanged(i.game) && unchanged(i.game.board))
      ensures unchanged(creg) && unchanged(creg.arr) && unchanged(preg) && unchanged(preg.arr)
      ensures forall p :: p in preg.players ==> Held(p)
    {
    }

    /** How the two parties look afterwards, and whether they remain. */
    twostate lemma DetachedParties(inv: Invitation)
      requires old(Isolated(inv)) && old(Counted()) && Detached(inv)
      ensures var s := TakeOut(old(ClientView(inv.src)), old(inv.srcSlot));
              (inv.src in books.clients <==> s.registered || Occupied(s.slots, null) > 0)
                  && (inv.src in books.clients ==> ClientView(inv.src) == s)
      ensures var t := TakeOut(old(ClientView(inv.target)), old(inv.targetSlot));
              (inv.target in books.clients <==> t.registered || Occupied(t.slots, null) > 0)
                  && (inv.target in books.clients ==> ClientView(inv.target) == t)
      ensures inv.src !in books.clients ==> inv.src.regSlot == -1
      ensures inv.target !in books.clients ==> inv.target.regSlot == -1
      ensures inv.src.TableOk() && inv.target.TableOk()
    {
      assert Key(0);
      assert inv.src.lst[..] == old(inv.src.lst[..])[old(inv.srcSlot) := null];
      assert inv.target.lst[..] == old(inv.target.lst[..])[old(inv.targetSlot) := null];
      assert old(ClientCounted(inv.src)) && old(ClientCounted(inv.target));
      OccupiedUpdate(old(inv.src.lst[..]), null, old(inv.srcSlot), null);
      OccupiedUpdate(old(inv.target.lst[..]), null, old(inv.targetSlot), null);
    }

    twostate lemma DetachedWired(inv: Invitation)
      requires old(Isolated(inv)) && old(Counted()) && Detached(inv)
      ensures Wired()
    {
      DetachedOthers(inv);
    }

    /** Which clients remain, and how they look. */
    twostate lemma DetachedClients(inv: Invitation)
      requires old(Isolated(inv)) && old(Counted()) && Detached(inv) && Wired()
      ensures View().clients ==
              Settle(Settle(old(View()).clients[inv.src := TakeOut(old(ClientView(inv.src)), old(inv.srcSlot))]
                                               [inv.target := TakeOut(old(ClientView(inv.target)),
                                                   old(inv.targetSlot))],
                            inv.src), inv.target)
    {
      DetachedOthers(inv);
      DetachedParties(inv);
      ghost var s, t := TakeOut(old(ClientView(inv.src)), old(inv.srcSlot)),
                TakeOut(old(ClientView(inv.target)), old(inv.targetSlot));
      forall c | c in books.clients && c != inv.src && c != inv.target
        ensures View().clients[c] == old(View()).clients[c]
      {
        assert ClientView(c) == old(ClientView(c));
      }
      SettledMap(old(View()).clients, View().clients, inv.src, inv.target, s, t);
    }

    twostate lemma DetachedInvs(inv: Invitation)
      requires old(Isolated(inv)) && old(Counted()) && Detached(inv) && Wired()
      ensures View().invs == old(View()).invs - {inv}
    {
      DetachedOthers(inv);
      forall i | i in books.invs
        ensures View().invs[i] == old(View()).invs[i]
      {
        assert InvView(i) == old(InvView(i));
      }
    }

    twostate lemma DetachedWorld(inv: Invitation)
      requires old(Isolated(inv)) && old(Counted()) && Detached(inv) && Wired()
      ensures View() == Detach(old(View()), inv).(log := books.log, posts := books.posts, ratings := preg.Ratings())
    {
      DetachedClients(inv);
      DetachedInvs(inv);
      DetachedOthers(inv);
    }

    twostate lemma DetachedCounted(inv: Invitation)
      requires old(Isolated(inv)) && old(Counted()) && Detached(inv) && Wired()
      ensures Counted()
    {
      DetachedOthers(inv);
      DetachedParties(inv);
      forall c | c in books.clients
        ensures ClientCounted(c)
      {
        assert old(ClientCounted(c));
      }
      forall i | i in books.invs
        ensures InvCounted(i)
      {
        assert old(InvCounted(i));
      }
      forall p | p in preg.players
        ensures PlayerCounted(p)
      {
        assert old(PlayerCounted(p));
      }
    }

    twostate lemma DetachedRegistry(inv: Invitation)
      requires old(Isolated(inv)) && old(Counted()) && Detached(inv) && Wired()
      requires old(RegistryOk()) && old(Apart())
      ensures RegistryOk() && Apart()
    {
      DetachedOthers(inv);
      DetachedParties(inv);
      assert creg.arr[..] == old(creg.arr[..]);
    }

    /** The invitation is freed, its game with it, and a party if that was its last reference. */
    twostate lemma DetachedKept(inv: Invitation)
      requires old(Isolated(inv)) && old(NothingLeaked()) && Detached(inv) && Wired()
      requires old(inv.src.player) != null && old(inv.target.player) != null
      ensures NothingLeaked()
    {
      forall o: object | o in Repr
        ensures Kept(o)
      {
        assert old(Kept(o));
      }
    }

    /** All of it together: the new state is the detached one, and is valid if that is. */
    twostate lemma DetachedDone(inv: Invitation)
      requires old(Valid()) && inv in old(books.invs) && old(Isolated(inv)) && Detached(inv)
      ensures Wired()
      ensures View() == Detach(old(View()), inv).(log := books.log, posts := books.posts, ratings := preg.Ratings())
      ensures Good(View()) ==> Valid()
    {
      assert Key(0);
      DetachedWired(inv);
      DetachedWorld(inv);
      DetachedCounted(inv);
      DetachedRegistry(inv);
      DetachedOthers(inv);
      assert InvOk(old(View()), inv);
      DetachedKept(inv);
      assert preg.Valid();
    }

    // ---------------------------------------------------------------- the operations

    twostate lemma WithdrawnRatings(inv: Invitation)
      requires old(Isolated(inv)) && Detached(inv) && old(inv.game) == null
      ensures preg.Ratings() == old(preg.Ratings())
    {
      forall p | p in old(preg.players)
        ensures p.rating == old(p.rating)
      {
        assert p in old(Repr) && !old(Touches(inv, p));
      }
      assert |preg.Ratings()| == |old(preg.Ratings())|;
    }

    /** The packet of a withdrawal is in the books. */
    twostate predicate Withdrawn(a: Withdrawal)
      reads this, a.inv
    {
      && books.posts == old(books.posts)
      && var other := OtherParty(a.inv, a.Caller());
         books.log == old(books.log) + [Sent(Packet(other.fd, if a.asSource then RevokedPkt else DeclinedPkt,
                                                    old(SlotOf(a.inv, other)) % 256, NullRole, Nothing, a.ok),
                                                        Some(old(About(a.inv, other))))]
    }

    /** The packet is the notice of the specification. */
    twostate lemma WithdrawNotice(a: Withdrawal)
      requires old(Valid()) && a.inv in old(books.invs) && old(a.inv.game) == null && Withdrawn(a)
      ensures a.inv in old(View()).invs && old(View()).invs[a.inv] == old(InvView(a.inv))
      ensures a.inv.src in old(View()).clients && a.inv.target in old(View()).clients
      ensures var w, kind := old(View()), if a.asSource then RevokedPkt else DeclinedPkt;
              books.log == w.log + [Notice(w, a.inv, OtherParty(a.inv, a.Caller()), kind, NullRole, Nothing, a.ok)]
    {
      assert InvOk(old(View()), a.inv) by {
        assert Key(0);
      }
    }

    /** The invitation is withdrawn by its source or its target, and the other party told. */
    twostate lemma WithdrawDone(a: Withdrawal)
      requires old(Valid()) && a.inv in old(books.invs) && old(Isolated(a.inv)) && Detached(a.inv)
      requires old(a.inv.game) == null && Withdrawn(a)
      ensures Valid()
      ensures books.holders == old(books.holders)
      ensures Withdraws(old(View()), a.Caller(), old(SlotOf(a.inv, a.Caller())), a.asSource, a.ok, View(),
                        if a.ok then 0 else -1)
    {
      DetachedDone(a.inv);
      WithdrawnRatings(a.inv);
      WithdrawNotice(a);
      assert InvOk(old(View()), a.inv) by {
        assert Key(0);
      }
      WithdrawIs(old(View()), a.inv, a.asSource, a.ok, books.log);
    }

    /** What the operations on a table entry rely on. */
    lemma EntryFacts(client: Client, id: nat)
      requires Valid() && client in books.clients && id < CAP
      ensures client in Repr && client.lst in Repr && client.lst.Length == CAP && Indexes(View(), client, id)
      ensures View().clients[client].slots[id] == client.lst[id]
      ensures client.lst[id] != null ==>
                var i: Invitation := client.lst[id];
                && i in books.invs && Standing(i) && Isolated(i) && client in {i.src, i.target}
                && SlotOf(i, client) == id
                && i in View().invs && View().invs[i] == InvView(i)
                && (i.game != null ==> i.game in Repr && i.game.board in Repr && i.game.Valid() && !i.game.abs.over)
    {
      ClientFacts(client);
      SlotFacts(client, id);
      if client.lst[id] != null {
        var i: Invitation := client.lst[id];
        InvitationFacts(i);
        ClientFacts(i.src);
        ClientFacts(i.target);
        PartyFacts(i);
        IsolatedFacts(i);
        if i.game != null {
          GameFacts(i);
        }
      }
    }

    /** What a notification to one party about the invitation is about. */
    ghost function About(inv: Invitation, to: Client): Subject
      reads inv, to, to.lst
    {
      Subject(inv, to, SlotOf(inv, to), SlotOf(inv, to) < to.lst.Length
          && to.lst[SlotOf(inv, to)] == inv, to.peak, to.regSlot != -1)
    }

    /** The books once the invitation has left. */
    ghost function BooksWithout(inv: Invitation, more: seq<Sent>, posted: seq<Posted>): Books
      reads this, inv.src, inv.target
    {
      Books(books.clients - Freed(inv.src) - Freed(inv.target), books.invs - {inv}, books.holders,
            books.log + more, books.posts + posted)
    }

    /** Revoke or decline from the table entry on, with the books kept. */
    method WithdrawBooked(client: Client, inv: Invitation, asSource: bool, ghost other: Client) returns (r: int)
      requires Standing(inv) && client in {inv.src, inv.target} && other == OtherParty(inv, client)
        && client.regSlot != -1
      modifies this`books, inv`refCount, inv`state, inv`alive, inv`game
      modifies client`len, client.lst, client`refCount, client`alive, client`player
      modifies other`len, other.lst, other`refCount, other`alive, other`player
      ensures !old(OpenTo(client, inv, asSource)) ==> r == -1 && unchanged(Repr)
      ensures old(OpenTo(client, inv, asSource)) ==>
                (r == 0 || r == -1) && Detached(inv) && Withdrawn(Withdrawal(inv, asSource, r == 0))
    {
      ghost var about := About(inv, other);
      ghost var sent;
      r, sent := WithdrawInvitation(client, inv, asSource, other);
      if old(OpenTo(client, inv, asSource)) {
        books := BooksWithout(inv, [Sent(sent[0], Some(about))], []);
      }
    }

    /** Without an open invitation for this party, nothing is withdrawn. */
    lemma WithdrawRefused(client: Client, id: nat, asSource: bool)
      requires Valid() && client in books.clients && id < CAP && client.lst.Length == CAP
      requires client.lst[id] != null ==> !OpenTo(client, client.lst[id], asSource)
      ensures Withdraws(View(), client, id, asSource, false, View(), -1)
    {
      EntryFacts(client, id);
    }

    /** client_revoke_invitation (as source) and client_decline_invitation (as target). */
    method WithdrawEntry(client: Client, id: nat, asSource: bool) returns (r: int)
      requires Valid() && Registered(client) && id < CAP
      modifies Repr
      ensures Valid() && Repr == old(Repr)
      ensures books.holders == old(books.holders)
      ensures (r == 0 || r == -1) && Withdraws(old(View()), client, id, asSource, r == 0, View(), r)
    {
      EntryFacts(client, id);
      var inv := client.lst[id];
      if inv == null {
        WithdrawRefused(client, id, asSource);
        return -1;
      }
      r := WithdrawBooked(client, inv, asSource, OtherParty(inv, client));
      if old(OpenTo(client, inv, asSource)) {
        WithdrawDone(Withdrawal(inv, asSource, r == 0));
      } else {
        WithdrawRefused(client, id, asSource);
      }
    }

    // ---------------------------------------------------------------- a game ends

    ghost function FirstOf(inv: Invitation): Player?
      reads inv.src, inv.target
    {
      if inv.srcRole == First then inv.src.player else inv.target.player
    }

    ghost function SecondOf(inv: Invitation): Player?
      reads inv.src, inv.target
    {
      if inv.srcRole == First then inv.target.player else inv.src.player
    }

    /** The two players of an invitation. */
    lemma OpponentFacts(inv: Invitation)
      requires Valid() && inv in books.invs
      ensures FirstOf(inv) != null && SecondOf(inv) != null
      ensures Opponents(inv, FirstOf(inv), SecondOf(inv)) && inv.srcRole != NullRole && inv.targetRole != NullRole
      ensures FirstOf(inv) in Repr && FirstOf(inv) in preg.players && FirstOf(inv).alive && FirstOf(inv).refCount >= 1
      ensures SecondOf(inv) in Repr && SecondOf(inv) in preg.players && SecondOf(inv).alive
        && SecondOf(inv).refCount >= 1
      ensures IsPower(pow10)
    {
      assert Key(0);
      InvitationFacts(inv);
      ClientFacts(inv.src);
      ClientFacts(inv.target);
    }

    /** The table of ratings after the result of a game was posted. */
    twostate lemma EndedRatings(e: Ending)
      requires old(Valid()) && e.inv in old(books.invs) && old(Isolated(e.inv)) && Detached(e.inv)
      requires old(Opponents(e.inv, e.first, e.second))
      requires Rated(pow10, old(e.first.rating), old(e.second.rating), ResultCode(e.winner), e.first.rating,
        e.second.rating)
      ensures IsPower(pow10) && e.first.id < |old(preg.Ratings())| && e.second.id < |old(preg.Ratings())|
        && e.first.id != e.second.id
      ensures preg.Ratings() == PostAt(pow10, old(preg.Ratings()), e.first.id, e.second.id, ResultCode(e.winner))
    {
      assert Key(0);
      ghost var ps := preg.players;
      assert e.first in ps && e.second in ps && e.first != e.second;
      forall p | p in ps && p != e.first && p != e.second
        ensures p.rating == old(p.rating)
      {
        assert p in old(Repr) && !old(Touches(e.inv, p));
      }
      ghost var rs := PostAt(pow10, old(preg.Ratings()), e.first.id, e.second.id, ResultCode(e.winner));
      forall k | 0 <= k < |ps|
        ensures preg.Ratings()[k] == rs[k]
      {
        assert ps[k].id == k;
      }
    }

    twostate predicate ResultRated(e: Ending)
      reads e.first, e.second
    {
      Rated(pow10, old(e.first.rating), old(e.second.rating), ResultCode(e.winner), e.first.rating, e.second.rating)
    }

    /** The result of a game is in the ratings and in the books. */
    twostate predicate ResultBooked(e: Ending)
      reads this, e.first, e.second
    {
      && ResultRated(e)
      && books.posts == old(books.posts) + [Posted(e.first, e.second, ResultCode(e.winner), e.inv)]
    }

    /** However a game ended: the invitation is gone and the result posted. */
    twostate lemma GameEnded(e: Ending)
      requires old(Valid()) && e.inv in old(books.invs) && old(Isolated(e.inv)) && Detached(e.inv)
      requires old(Opponents(e.inv, e.first, e.second))
      requires ResultBooked(e)
      ensures Wired() && IsPower(pow10)
      ensures var w := old(View());
              && e.inv in w.invs && InvOk(w, e.inv)
              && View() == PostGame(Detach(w, e.inv).(log := books.log), w, e.inv, pow10, e.winner)
      ensures Good(View()) ==> Valid()
    {
      DetachedDone(e.inv);
      EndedRatings(e);
      assert Key(0);
      assert InvOk(old(View()), e.inv);
    }

    /** The result and the packets of a resignation are in the books. */
    twostate predicate Resigned(e: Ending)
      reads this, e.inv, e.first, e.second
    {
      && ResultBooked(e)
      && |e.packets| == 3
      && var other := OtherParty(e.inv, e.client);
         var slot := old(SlotOf(e.inv, other));
         && e.packets == [Packet(other.fd, ResignedPkt, slot % 256, NullRole, Nothing, e.packets[0].ok),
                          Packet(e.client.fd, EndedPkt, old(SlotOf(e.inv, e.client)) % 256, e.winner, Nothing,
                              e.packets[1].ok),
                          Packet(other.fd, EndedPkt, slot % 256, e.winner, Nothing, e.packets[2].ok)]
         && books.log == old(books.log) + [Sent(e.packets[0], Some(old(About(e.inv, other)))),
                                           Sent(e.packets[1], Some(old(About(e.inv, e.client)))),
                                           Sent(e.packets[2], Some(old(About(e.inv, other))))]
    }

    /** The invitation's game was resigned by a party, and all the packets went out. */
    twostate lemma ResignDone(e: Ending)
      requires old(Valid()) && e.inv in old(books.invs) && old(Isolated(e.inv)) && Detached(e.inv)
      requires old(Opponents(e.inv, e.first, e.second)) && e.client in {e.inv.src, e.inv.target}
      requires old(e.inv.game) != null && e.winner == Concede(old(e.inv.game.abs), RoleOf(e.inv, e.client)).winner
      requires Resigned(e)
      ensures Valid()
      ensures books.holders == old(books.holders)
      ensures Quits(old(View()), e.client, old(SlotOf(e.inv, e.client)),
        [e.packets[0].ok, e.packets[1].ok, e.packets[2].ok], pow10,
                    View(), if e.packets[2].ok then 0 else -1)
    {
      GameEnded(e);
      assert Key(0);
      QuitInv(old(View()), e.client, old(SlotOf(e.inv, e.client)), [e.packets[0].ok, e.packets[1].ok, e.packets[2].ok],
          pow10);
    }

    /** client_resign_game from the table entry on, up to the books. */
    method ResignHere(client: Client, inv: Invitation, id: nat, ghost other: Client, ghost first: Player,
                      ghost second: Player)
      returns (r: int, ghost sent: seq<Packet>)
      requires Standing(inv) && client in {inv.src, inv.target} && other == OtherParty(inv, client)
      requires client.regSlot != -1 && SlotOf(inv, client) == id
      requires IsPower(pow10) && inv.srcRole != NullRole && inv.targetRole != NullRole
      requires Opponents(inv, first, second) && first.alive && second.alive
      requires inv.game != null ==> inv.game.Valid()
      modifies inv`refCount, inv`state, inv`alive, inv`game
      modifies client`len, client.lst, client`refCount, client`alive, client`player
      modifies other`len, other.lst, other`refCount, other`alive, other`player
      modifies inv.game, first`rating, second`rating
      ensures !old(Playing(inv)) ==> r == -1 && sent == [] && unchanged(Repr)
      ensures old(Playing(inv)) ==>
                var winner := Concede(old(inv.game.abs), RoleOf(inv, client)).winner;
                && |sent| == 3 && r == (if sent[2].ok then 0 else -1)
                && Left(inv) && ResultRated(Ending(inv, client, first, second, winner, sent))
                && sent == [Packet(other.fd, ResignedPkt, old(SlotOf(inv, other)) % 256, NullRole, Nothing, sent[0].ok),
                            Packet(client.fd, EndedPkt, id % 256, winner, Nothing, sent[1].ok),
                            Packet(other.fd, EndedPkt, old(SlotOf(inv, other)) % 256, winner, Nothing, sent[2].ok)]
    {
      ghost var me: object := this;
      assert me != inv && me != client && me != other && me != client.lst && me != other.lst && me != inv.game
             && me != first && me != second;
      ghost var posted;
      r, sent, posted := ResignGame(client, inv, id, pow10, other, first, second);
    }

    /** client_resign_game from the table entry on, with the books kept. */
    method ResignBooked(client: Client, inv: Invitation, id: nat, ghost other: Client, ghost first: Player,
                        ghost second: Player)
      returns (r: int, ghost sent: seq<Packet>)
      requires Standing(inv) && client in {inv.src, inv.target} && other == OtherParty(inv, client)
        && client.regSlot != -1
      requires SlotOf(inv, client) == id
      requires IsPower(pow10) && inv.srcRole != NullRole && inv.targetRole != NullRole
      requires Opponents(inv, first, second) && first.alive && second.alive
      requires inv.game != null ==> inv.game.Valid()
      modifies this`books, inv`refCount, inv`state, inv`alive, inv`game
      modifies client`len, client.lst, client`refCount, client`alive, client`player
      modifies other`len, other.lst, other`refCount, other`alive, other`player
      modifies inv.game, first`rating, second`rating
      ensures !old(Playing(inv)) ==> r == -1 && sent == [] && unchanged(Repr)
      ensures old(Playing(inv)) ==>
                && |sent| == 3 && r == (if sent[2].ok then 0 else -1)
                && Detached(inv)
                && Resigned(Ending(inv, client, first, second, Concede(old(inv.game.abs), RoleOf(inv, client)).winner,
                     sent))
    {
      ghost var mine, theirs := About(inv, client), About(inv, other);
      ghost var me: object := this;
      assert me != inv && me != client && me != other && me != client.lst && me != other.lst && me != inv.game
             && me != first && me != second;
      r, sent := ResignHere(client, inv, id, other, first, second);
      if old(Playing(inv)) {
        ghost var winner := Concede(old(inv.game.abs), RoleOf(inv, client)).winner;
        books := BooksWithout(inv,
                              [Sent(sent[0], Some(theirs)), Sent(sent[1], Some(mine)), Sent(sent[2], Some(theirs))],
                              [Posted(first, second, ResultCode(winner), inv)]);
      }
    }

    /** Without a running game nobody resigns. */
    lemma ResignRefused(client: Client, id: nat)
      requires Valid() && client in books.clients && id < CAP && client.lst.Length == CAP
      requires client.lst[id] != null ==> !Playing(client.lst[id])
      ensures Quits(View(), client, id, [], pow10, View(), -1)
    {
      EntryFacts(client, id);
      assert Key(0);
    }

    /** client_resign_game. */
    method ResignEntry(client: Client, id: nat) returns (r: int, ghost oks: seq<bool>)
      requires Valid() && Registered(client) && id < CAP
      modifies Repr
      ensures Valid() && Repr == old(Repr)
      ensures books.holders == old(books.holders)
      ensures Quits(old(View()), client, id, oks, pow10, View(), r)
    {
      EntryFacts(client, id);
      oks := [];
      var inv := client.lst[id];
      if inv == null {
        ResignRefused(client, id);
        return -1, [];
      }
      OpponentFacts(inv);
      ghost var other := OtherParty(inv, client);
      ghost var first, second := FirstOf(inv), SecondOf(inv);
      ghost var sent;
      r, sent := ResignBooked(client, inv, id, other, first, second);
      if !old(Playing(inv)) {
        ResignRefused(client, id);
      } else {
        oks := [sent[0].ok, sent[1].ok, sent[2].ok];
        ResignDone(Ending(inv, client, first, second, Concede(old(inv.game.abs), RoleOf(inv, client)).winner, sent));
      }
    }

    // ---------------------------------------------------------------- a game starts

    /** The game of one invitation is new or has a new position; nothing else changed. */
    twostate predicate Renewed(inv: Invitation)
      reads `Repr, Repr - {this}, inv, inv.GameSet(), set g | g in inv.GameSet() :: g.board
    {
      && inv.alive && inv.refCount == 2 && inv.state == Accepted
      && inv.srcSlot == old(inv.srcSlot) && inv.targetSlot == old(inv.targetSlot)
      && inv.game != null && inv.game.alive && inv.game.refCount == 1 && inv.game.Valid()
      && (if old(inv.game) == null then
            fresh(inv.game) && fresh(inv.game.board) && Repr == old(Repr) + {inv.game, inv.game.board}
          else
            inv.game == old(inv.game) && Repr == old(Repr))
      && (forall o: object {:trigger o in old(Repr)} ::
            o in old(Repr) && o != this && o != inv && o != inv.game && o != inv.game.board ==> unchanged(o))
    }

    /** The same, with the books kept. */
    twostate predicate GameChanged(inv: Invitation)
      reads this, Repr, inv, inv.GameSet(), set g | g in inv.GameSet() :: g.board
    {
      Renewed(inv) && books == old(books).(log := books.log)
    }

    /** Everybody else's objects are as they were. */
    twostate lemma GameChangedOthers(inv: Invitation)
      requires old(Isolated(inv)) && GameChanged(inv)
      ensures forall c :: c in books.clients ==> unchanged(c) && unchanged(c.lst)
      ensures forall i :: i in books.invs && i != inv ==>
        unchanged(i) && (i.game != null ==> unchanged(i.game) && unchanged(i.game.board))
      ensures unchanged(creg) && unchanged(creg.arr) && unchanged(preg) && unchanged(preg.arr)
      ensures forall p :: p in preg.players ==> unchanged(p)
      ensures Wired()
    {
    }

    twostate lemma GameChangedRatings(inv: Invitation)
      requires old(Isolated(inv)) && GameChanged(inv) && Wired()
      ensures preg.Ratings() == old(preg.Ratings())
    {
      GameChangedOthers(inv);
      forall k | 0 <= k < |preg.players|
        ensures preg.Ratings()[k] == old(preg.Ratings())[k]
      {
        assert preg.players[k] in preg.players;
      }
    }

    twostate lemma GameChangedWorld(inv: Invitation)
      requires old(Isolated(inv)) && GameChanged(inv) && Wired()
      ensures var v := InvV(old(inv.srcSlot), old(inv.targetSlot), Some(inv.game.abs));
              View() == old(View()).(invs := old(View()).invs[inv := v], log := books.log)
    {
      GameChangedOthers(inv);
      forall c | c in books.clients
        ensures ClientView(c) == old(ClientView(c))
      {
      }
      forall i | i in books.invs && i != inv
        ensures InvView(i) == old(InvView(i))
      {
      }
      GameChangedRatings(inv);
    }

    twostate lemma GameChangedKept(inv: Invitation)
      requires old(Isolated(inv)) && GameChanged(inv) && Wired() && old(NothingLeaked())
      ensures NothingLeaked()
    {
      forall o: object | o in Repr
        ensures Kept(o)
      {
        assert o in old(Repr) ==> old(Kept(o));
        assert inv in books.invs && inv in Repr;
      }
    }

    twostate lemma GameChangedInvariant(inv: Invitation)
      requires old(Isolated(inv)) && GameChanged(inv) && Wired() && old(Invariant())
      ensures Invariant()
    {
      GameChangedOthers(inv);
      forall c | c in books.clients
        ensures ClientCounted(c)
      {
        assert old(ClientCounted(c));
      }
      forall i | i in books.invs
        ensures InvCounted(i)
      {
        assert old(InvCounted(i));
      }
      forall p | p in preg.players
        ensures PlayerCounted(p)
      {
        assert old(PlayerCounted(p));
      }
      GameChangedKept(inv);
      assert creg.arr[..] == old(creg.arr[..]);
    }

    twostate lemma GameChangedDone(inv: Invitation)
      requires old(Valid()) && old(Isolated(inv)) && GameChanged(inv)
      ensures Wired()
      ensures var v := InvV(old(inv.srcSlot), old(inv.targetSlot), Some(inv.game.abs));
              View() == old(View()).(invs := old(View()).invs[inv := v], log := books.log)
      ensures Good(View()) ==> Valid()
    {
      assert Key(0);
      GameChangedOthers(inv);
      GameChangedWorld(inv);
      GameChangedInvariant(inv);
    }

    /** The source's packet is in the books. */
    twostate predicate SourceTold(a: Opening)
      reads this
    {
      books.log == old(books.log) +
                   [Sent(Packet(a.inv.src.fd, AcceptedPkt, old(a.inv.srcSlot) % 256, a.inv.srcRole,
                                if a.inv.srcRole == First then Position(Initial().cells, First) else Nothing, a.ok),
                         Some(old(About(a.inv, a.inv.src))))]
    }

    /** A new game, and its source has been told (kept folded). */
    twostate predicate Opened(a: Opening)
      reads this, Repr, a.inv, a.inv.GameSet(), set g | g in a.inv.GameSet() :: g.board
    {
      forall k {:trigger MoveKey(k)} :: MoveKey(k) ==>
        GameChanged(a.inv) && a.inv.game.abs == Initial() && SourceTold(a)
    }

    /** The packet is the notice of the specification. */
    twostate lemma AcceptNotice(a: Opening)
      requires old(Valid()) && a.inv in old(books.invs) && old(a.inv.game) == null && SourceTold(a)
      ensures a.inv in old(View()).invs && old(View()).invs[a.inv] == old(InvView(a.inv))
      ensures a.inv.src in old(View()).clients
      ensures var w, text := old(View()), if a.inv.srcRole == First then Position(Initial().cells, First) else Nothing;
              books.log == w.log + [Notice(w, a.inv, a.inv.src, AcceptedPkt, a.inv.srcRole, text, a.ok)]
    {
      assert InvOk(old(View()), a.inv) by {
        assert Key(0);
      }
    }

    twostate lemma AcceptDone(a: Opening)
      requires old(Valid()) && old(Isolated(a.inv)) && old(a.inv.game) == null && Opened(a)
      ensures Valid()
      ensures books.holders == old(books.holders)
      ensures Accepts(old(View()), a.inv.target, old(a.inv.targetSlot), a.ok, View(), if a.ok then 0 else -1,
                      if a.inv.srcRole == First then None else Some(Position(Initial().cells, First)))
    {
      assert GameChanged(a.inv) && a.inv.game.abs == Initial() && SourceTold(a) by {
        assert MoveKey(0);
      }
      GameChangedDone(a.inv);
      AcceptNotice(a);
      AcceptIs(old(View()), a.inv, a.ok, books.log);
    }

    method AcceptBooked(client: Client, inv: Invitation)
      returns (r: int, strp: Option<string>, ghost told: Option<Payload>)
      requires Standing(inv)
      modifies this`books, this`Repr, inv`refCount, inv`state, inv`game, inv.src`refCount
      ensures fresh(Repr - old(Repr))
      ensures !old(OpenTo(client, inv, false)) ==> r == -1 && told == None && Repr == old(Repr) && unchanged(old(Repr))
      ensures old(OpenTo(client, inv, false)) ==>
                && (r == 0 || r == -1) && Opened(Opening(inv, r == 0))
                && told == if inv.srcRole == First then None else Some(Position(Initial().cells, First))
      ensures if told == None then strp == None else strp.Some? && Spells(told.value, strp.value)
    {
      ghost var about := About(inv, inv.src);
      ghost var sent;
      r, strp, sent := AcceptInvitation(client, inv);
      told := None;
      if old(OpenTo(client, inv, false)) {
        told := if inv.srcRole == First then None else Some(Position(Initial().cells, First));
        books := books.(log := books.log + [Sent(sent[0], Some(about))]);
        Repr := Repr + {inv.game, inv.game.board};
      }
    }

    /** Only the target of an open invitation can accept. */
    lemma AcceptRefused(client: Client, id: nat)
      requires Valid() && client in books.clients && id < CAP && client.lst.Length == CAP
      requires client.lst[id] != null ==> !OpenTo(client, client.lst[id], false)
      ensures Accepts(View(), client, id, false, View(), -1, None)
    {
      EntryFacts(client, id);
    }

    /** client_accept_invitation; `told` is what `strp` spells. */
    method AcceptEntry(client: Client, id: nat) returns (r: int, strp: Option<string>, ghost told: Option<Payload>)
      requires Valid() && Registered(client) && id < CAP
      modifies Repr
      ensures Valid() && fresh(Repr - old(Repr))
      ensures books.holders == old(books.holders)
      ensures (r == 0 || r == -1) && Accepts(old(View()), client, id, r == 0, View(), r, told)
      ensures if told == None then strp == None else strp.Some? && Spells(told.value, strp.value)
    {
      EntryFacts(client, id);
      var inv := client.lst[id];
      if inv == null || !OpenTo(client, inv, false) {
        AcceptRefused(client, id);
      }
      if inv == null {
        return -1, None, None;
      }
      r, strp, told := AcceptBooked(client, inv);
      if old(OpenTo(client, inv, false)) {
        AcceptDone(Opening(inv, r == 0));
      }
    }

    // ---------------------------------------------------------------- a move

    /** The move was legal and led to this position, and the first packet shows it to the opponent. */
    twostate predicate Played(t: Turn) {
      && t.client in {t.inv.src, t.inv.target}
      && LeadsTo(t.client, t.inv, t.move, t.g)
      && |t.packets| > 0
      && var other := OtherParty(t.inv, t.client);
         t.packets[0] == MovedPacket(other, old(SlotOf(t.inv, other)), t.g, t.packets[0].ok)
    }

    /** The game goes on: it has the new position, the opponent was told, and nothing else changed. */
    twostate predicate Continued(t: Turn)
      reads this, Repr, t.inv, t.inv.GameSet(), set g | g in t.inv.GameSet() :: g.board
    {
      && Played(t) && !t.g.over && |t.packets| == 1
      && GameChanged(t.inv) && t.inv.game.abs == t.g
      && books.log == old(books.log) + [Sent(t.packets[0], Some(old(About(t.inv, OtherParty(t.inv, t.client)))))]
    }

    /** The game ended with the move: the packets and the result are in the books. */
    twostate predicate Ended(t: Turn)
      reads this, t.first, t.second
    {
      && Played(t) && t.g.over && |t.packets| == 3
      && ResultBooked(t.End())
      && var other := OtherParty(t.inv, t.client);
         && t.packets[1] == Packet(t.client.fd, EndedPkt, old(SlotOf(t.inv, t.client)) % 256, t.g.winner, Nothing,
              t.packets[1].ok)
         && t.packets[2] == Packet(other.fd, EndedPkt, old(SlotOf(t.inv, other)) % 256, t.g.winner, Nothing,
              t.packets[2].ok)
         && books.log == old(books.log) + [Sent(t.packets[0], Some(old(About(t.inv, other)))),
                                           Sent(t.packets[1], Some(old(About(t.inv, t.client)))),
                                           Sent(t.packets[2], Some(old(About(t.inv, other))))]
    }

    /** The packets in the books are the notices of the specification. */
    twostate lemma TurnNotices(t: Turn)
      requires old(Valid()) && t.inv in old(books.invs) && Played(t) && (Ended(t) || |t.packets| == 1)
      ensures t.inv in old(View()).invs && t.client in old(View()).clients
        && OtherParty(t.inv, t.client) in old(View()).clients
      ensures old(t.inv.game) != null && old(View()).invs[t.inv].game == Some(old(t.inv.game.abs))
      ensures var w, id := old(View()), old(SlotOf(t.inv, t.client));
              Indexes(w, t.client, id) && w.clients[t.client].slots[id] == t.inv && Playable(w, t.client, id, t.move)
      ensures var w, other := old(View()), OtherParty(t.inv, t.client);
              && Sent(t.packets[0], Some(old(About(t.inv, other))))
                 == Notice(w, t.inv, other, MovedPkt, NullRole, Position(t.g.cells, t.g.turn), t.packets[0].ok)
              && (Ended(t) ==>
                    && Sent(t.packets[1], Some(old(About(t.inv, t.client))))
                       == Notice(w, t.inv, t.client, EndedPkt, t.g.winner, Nothing, t.packets[1].ok)
                    && Sent(t.packets[2], Some(old(About(t.inv, other))))
                       == Notice(w, t.inv, other, EndedPkt, t.g.winner, Nothing, t.packets[2].ok))
    {
      assert Key(0) && MoveKey(0);
      assert InvOk(old(View()), t.inv);
    }

    /** What the specification makes of a move that ends the game. */
    twostate lemma EndedSpecified(t: Turn)
      requires old(Valid()) && IsPower(pow10) && t.inv in old(books.invs) && Ended(t)
      ensures var w, id := old(View()), old(SlotOf(t.inv, t.client));
              && Indexes(w, t.client, id) && Playable(w, t.client, id, t.move) && t.inv in w.invs && InvOk(w, t.inv)
              && var (w', r) := Advance(w, t.client, id, t.move, [t.packets[0].ok, t.packets[1].ok, t.packets[2].ok],
                   pow10);
                 w' == PostGame(Detach(w, t.inv).(log := books.log), w, t.inv, pow10, t.g.winner) && r == 0 && Good(w')
    {
      TurnNotices(t);
      assert MoveKey(0);
      ghost var oks := [t.packets[0].ok, t.packets[1].ok, t.packets[2].ok];
      AdvanceInv(old(View()), t.client, old(SlotOf(t.inv, t.client)), t.move, oks, pow10);
      AdvanceEnds(old(View()), t.client, old(SlotOf(t.inv, t.client)), t.inv, t.move, t.g, books.log, oks, pow10);
    }

    twostate lemma EndedDone(t: Turn)
      requires old(Valid()) && t.inv in old(books.invs) && old(Isolated(t.inv)) && Detached(t.inv)
      requires old(Opponents(t.inv, t.first, t.second)) && Ended(t)
      ensures Valid() && IsPower(pow10)
      ensures books.holders == old(books.holders)
      ensures var w, id := old(View()), old(SlotOf(t.inv, t.client));
              && Indexes(w, t.client, id) && Playable(w, t.client, id, t.move)
              && (View(), 0) == Advance(w, t.client, id, t.move, [t.packets[0].ok, t.packets[1].ok, t.packets[2].ok],
                   pow10)
    {
      GameEnded(t.End());
      EndedSpecified(t);
    }

    /** What the specification makes of a move that does not end the game. */
    twostate lemma ContinuedSpecified(t: Turn)
      requires old(Valid()) && IsPower(pow10) && t.inv in old(books.invs) && Played(t) && !t.g.over && |t.packets| == 1
      requires books.log == old(books.log) + [Sent(t.packets[0], Some(old(About(t.inv, OtherParty(t.inv, t.client)))))]
      ensures var w, id := old(View()), old(SlotOf(t.inv, t.client));
              && Indexes(w, t.client, id) && Playable(w, t.client, id, t.move) && t.inv in w.invs
              && var (w', r) := Advance(w, t.client, id, t.move, [t.packets[0].ok, false, false], pow10);
                 w' == w.(invs := w.invs[t.inv := w.invs[t.inv].(game := Some(t.g))], log := books.log) && r == 0
                     && Good(w')
    {
      TurnNotices(t);
      assert MoveKey(0);
      ghost var oks := [t.packets[0].ok, false, false];
      AdvanceInv(old(View()), t.client, old(SlotOf(t.inv, t.client)), t.move, oks, pow10);
      AdvanceContinues(old(View()), t.client, old(SlotOf(t.inv, t.client)), t.inv, t.move, t.g, books.log, oks, pow10);
    }

    twostate lemma ContinuedDone(t: Turn)
      requires old(Valid()) && IsPower(pow10) && t.inv in old(books.invs) && old(Isolated(t.inv)) && Continued(t)
      ensures Valid()
      ensures books.holders == old(books.holders)
      ensures var w, id := old(View()), old(SlotOf(t.inv, t.client));
              && Indexes(w, t.client, id) && Playable(w, t.client, id, t.move)
              && (View(), 0) == Advance(w, t.client, id, t.move, [t.packets[0].ok, false, false], pow10)
    {
      GameChangedDone(t.inv);
      ContinuedSpecified(t);
      assert old(View()).invs[t.inv] == old(InvView(t.inv));
    }

    /** A move is refused, or ends the game, or the game goes on (kept folded). */
    twostate predicate MoveMade(t: Turn)
      reads this, Repr, t.inv, t.inv.src, t.inv.target, t.inv.src.lst, t.inv.target.lst, t.first, t.second
      reads t.inv.GameSet(), set g | g in t.inv.GameSet() :: g.board
    {
      forall k {:trigger Key(k)} :: Key(k) ==>
        if t.packets == [] then Repr == old(Repr) && (forall o :: o in Repr ==> unchanged(o))
            && Refuses(t.client, t.inv, t.move)
        else if t.g.over then Ended(t) && Detached(t.inv)
        else Continued(t)
    }

    twostate lemma AcceptedDone(t: Turn)
      requires old(Valid()) && IsPower(pow10) && t.inv in old(books.invs) && old(Isolated(t.inv))
        && old(Opponents(t.inv, t.first, t.second))
      requires MoveMade(t) && t.packets != []
      ensures Valid()
      ensures books.holders == old(books.holders)
      ensures Advances(old(View()), t.client, old(SlotOf(t.inv, t.client)), t.move, t.Outcomes(), pow10, View(), 0)
    {
      assert Key(0);
      if t.g.over {
        EndedDone(t);
      } else {
        ContinuedDone(t);
      }
    }

    twostate lemma RefusedDone(t: Turn)
      requires old(Valid()) && IsPower(pow10) && t.client in old(books.clients) && t.inv in old(books.invs)
      requires old(SlotOf(t.inv, t.client)) < CAP && t.client.lst.Length == CAP
        && old(t.client.lst[SlotOf(t.inv, t.client)]) == t.inv
      requires MoveMade(t) && t.packets == []
      ensures Valid() && books.holders == old(books.holders)
      ensures Advances(old(View()), t.client, old(SlotOf(t.inv, t.client)), t.move, [], pow10, View(), -1)
    {
      assert Repr == old(Repr) && unchanged(Repr) && Refuses(t.client, t.inv, t.move) by {
        assert Key(0);
      }
      MoveRefused(t.client, old(SlotOf(t.inv, t.client)), t.move);
    }

    twostate lemma MoveDone(t: Turn)
      requires old(Valid()) && IsPower(pow10) && t.inv in old(books.invs) && old(Isolated(t.inv))
        && old(Opponents(t.inv, t.first, t.second))
      requires t.client in old(books.clients) && old(SlotOf(t.inv, t.client)) < CAP && t.client.lst.Length == CAP
      requires old(t.client.lst[SlotOf(t.inv, t.client)]) == t.inv
      requires MoveMade(t)
      ensures Valid()
      ensures books.holders == old(books.holders)
      ensures Advances(old(View()), t.client, old(SlotOf(t.inv, t.client)), t.move, t.Outcomes(), pow10, View(),
                       if t.packets == [] then -1 else 0)
    {
      if t.packets == [] {
        RefusedDone(t);
      } else {
        AcceptedDone(t);
      }
    }

    /** A refused move is refused by the specification. */
    lemma MoveRefused(client: Client, id: nat, move: string)
      requires Valid() && client in books.clients && id < CAP && client.lst.Length == CAP
      requires client.lst[id] != null ==> Refuses(client, client.lst[id], move)
      ensures Advances(View(), client, id, move, [], pow10, View(), -1)
    {
      assert Key(0) && MoveKey(0);
      EntryFacts(client, id);
    }

    /** What a move did to all objects but this one (kept folded). */
    twostate predicate MovedHere(t: Turn)
      reads `Repr, Repr - {this}, t.inv, t.inv.src, t.inv.target, t.inv.src.lst, t.inv.target.lst, t.first, t.second
      reads t.inv.GameSet(), set g | g in t.inv.GameSet() :: g.board
    {
      forall k {:trigger Key(k)} :: Key(k) ==>
        if t.packets == [] then
          Repr == old(Repr) && (forall o :: o in Repr && o != this ==> unchanged(o)) && Refuses(t.client, t.inv, t.move)
        else if t.g.over then
          && Played(t) && |t.packets| == 3 && ResultRated(t.End()) && Left(t.inv)
          && var other := OtherParty(t.inv, t.client);
             && t.packets[1] == Packet(t.client.fd, EndedPkt, old(SlotOf(t.inv, t.client)) % 256, t.g.winner, Nothing,
                                       t.packets[1].ok)
             && t.packets[2] == Packet(other.fd, EndedPkt, old(SlotOf(t.inv, other)) % 256, t.g.winner, Nothing,
                                       t.packets[2].ok)
        else Played(t) && |t.packets| == 1 && Renewed(t.inv) && t.inv.game.abs == t.g
    }

    method MoveHere(client: Client, inv: Invitation, id: nat, move: string,
                    ghost other: Client, ghost first: Player, ghost second: Player, ghost board: array2?<char>)
      returns (r: int, ghost t: Turn)
      requires Standing(inv) && client in {inv.src, inv.target} && other == OtherParty(inv, client)
      requires client.regSlot != -1 && SlotOf(inv, client) == id
      requires if inv.game == null then board == null else inv.game.Valid() && board == inv.game.board
      requires IsPower(pow10) && Opponents(inv, first, second) && inv.srcRole != NullRole && inv.targetRole != NullRole
      requires first.alive && second.alive && first.refCount >= 1 && second.refCount >= 1
      modifies client`len, client.lst, client`refCount, client`alive, client`player
      modifies other`len, other.lst, other`refCount, other`alive, other`player
      modifies inv`refCount, inv`alive, inv`game, inv.game, board
      modifies first`rating, second`rating, first`refCount, second`refCount
      ensures r == (if t.packets == [] then -1 else 0) && Repr == old(Repr)
      ensures t.inv == inv && t.client == client && t.move == move && t.first == first && t.second == second
      ensures t.packets == [] || |t.packets| == if t.g.over then 3 else 1
      ensures MovedHere(t)
    {
      ghost var me: object := this;
      assert me != inv && me != client && me != other && me != client.lst && me != other.lst;
      assert me != inv.game && me != board && me != first && me != second;
      ghost var sent, posted, g;
      r, sent, posted, g := MakeMove(client, inv, id, move, pow10, other, first, second, board);
      t := Turn(inv, client, move, first, second, g, sent);
      if r == 0 {
        assert Played(t);
        if g.over {
          assert Left(inv);
        } else {
          assert Renewed(inv);
        }
      }
    }

    /** The books with a move entered. */
    ghost function BooksAfter(t: Turn, mine: Subject, theirs: Subject): Books
      reads `books, t.inv.src, t.inv.target
    {
      if |t.packets| == 3 then
        Books(books.clients - Freed(t.inv.src) - Freed(t.inv.target), books.invs - {t.inv}, books.holders,
              books.log + [Sent(t.packets[0], Some(theirs)), Sent(t.packets[1], Some(mine)),
                  Sent(t.packets[2], Some(theirs))],
              books.posts + [Posted(t.first, t.second, ResultCode(t.g.winner), t.inv)])
      else if |t.packets| == 1 then books.(log := books.log + [Sent(t.packets[0], Some(theirs))])
      else books
    }

    /** What a move put into the books. */
    twostate predicate MoveEntered(t: Turn)
      reads this, t.inv.src, t.inv.target
    {
      var mine, theirs := old(About(t.inv, t.client)), old(About(t.inv, OtherParty(t.inv, t.client)));
      if |t.packets| == 3 then
        books == Books(old(books).clients - Freed(t.inv.src) - Freed(t.inv.target), old(books).invs - {t.inv},
            old(books).holders,
                       old(books).log + [Sent(t.packets[0], Some(theirs)), Sent(t.packets[1], Some(mine)),
                                         Sent(t.packets[2], Some(theirs))],
                       old(books).posts + [Posted(t.first, t.second, ResultCode(t.g.winner), t.inv)])
      else if |t.packets| == 1 then
        books == old(books).(log := old(books).log + [Sent(t.packets[0], Some(theirs))])
      else books == old(books)
    }

    twostate lemma MoveIsMade(t: Turn)
      requires MovedHere(t) && MoveEntered(t) && (t.packets == [] ==> unchanged(this))
      ensures MoveMade(t)
    {
      assert Key(0);
      if t.packets == [] {
        assert forall o :: o in Repr ==> unchanged(o);
      } else if t.g.over {
        assert ResultBooked(t.End());
        assert Ended(t) && Detached(t.inv);
      } else {
        assert Continued(t);
      }
    }

    /** client_make_move from the table entry on, with the books kept. */
    method MoveBooked(client: Client, inv: Invitation, id: nat, move: string,
                      ghost other: Client, ghost first: Player, ghost second: Player, ghost board: array2?<char>)
      returns (r: int, ghost t: Turn)
      requires Standing(inv) && client in {inv.src, inv.target} && other == OtherParty(inv, client)
        && client.regSlot != -1
      requires SlotOf(inv, client) == id
      requires if inv.game == null then board == null else inv.game.Valid() && board == inv.game.board
      requires IsPower(pow10) && Opponents(inv, first, second) && inv.srcRole != NullRole && inv.targetRole != NullRole
      requires first.alive && second.alive && first.refCount >= 1 && second.refCount >= 1
      modifies this`books
      modifies client`len, client.lst, client`refCount, client`alive, client`player
      modifies other`len, other.lst, other`refCount, other`alive, other`player
      modifies inv`refCount, inv`alive, inv`game, inv.game, board
      modifies first`rating, second`rating, first`refCount, second`refCount
      ensures r == (if t.packets == [] then -1 else 0) && Repr == old(Repr)
      ensures t.inv == inv && t.client == client && t.move == move && t.first == first && t.second == second
      ensures MoveMade(t)
    {
      ghost var mine, theirs := About(inv, client), About(inv, other);
      ghost var me: object := this;
      assert me != inv && me != client && me != other && me != client.lst && me != other.lst;
      assert me != inv.game && me != board && me != first && me != second;
      r, t := MoveHere(client, inv, id, move, other, first, second, board);
      books := BooksAfter(t, mine, theirs);
      MoveIsMade(t);
    }

    /** client_make_move. */
    method MoveEntry(client: Client, id: nat, move: string) returns (r: int, ghost oks: seq<bool>)
      requires Valid() && Registered(client) && id < CAP
      modifies Repr
      ensures Valid() && Repr == old(Repr)
      ensures books.holders == old(books.holders)
      ensures Advances(old(View()), client, id, move, oks, pow10, View(), r)
    {
      EntryFacts(client, id);
      var inv := client.lst[id];
      oks := [];
      if inv == null {
        MoveRefused(client, id, move);
        return -1, [];
      }
      OpponentFacts(inv);
      ghost var t;
      r, t := MoveBooked(client, inv, id, move, OtherParty(inv, client), FirstOf(inv), SecondOf(inv),
          if inv.game == null then null else inv.game.board);
      oks := t.Outcomes();
      MoveDone(t);
    }

    // ---------------------------------------------------------------- an invitation is made

    /** Only the two clients and their tables may have changed, besides the books. */
    twostate predicate OnlyTables(a: Asking)
      reads `Repr, Repr - {this}
    {
      forall o: object {:trigger o in old(Repr)} ::
        o in old(Repr) && o in Repr ==>
          o != this && o != a.source && o != a.target && o != a.source.lst && o != a.target.lst ==> unchanged(o)
    }

    /** No invitation came of it. */
    twostate predicate NotMade(a: Asking)
      reads `Repr, Repr - {this}, a.source, a.source.lst, a.target, a.target.lst
    {
      Restored(a.source) && Restored(a.target) && OnlyTables(a) && Repr == old(Repr)
    }

    ghost function Asked(a: Asking): Invitation?
      reads a.source.lst
    {
      if a.slot < a.source.lst.Length then a.source.lst[a.slot] else null
    }

    /** The invitation is in both tables. */
    twostate predicate Entered(a: Asking)
      reads `Repr, Repr - {this}, a.source, a.source.lst, a.target, a.target.lst
      reads if Asked(a) == null then {} else {Asked(a)}
    {
      && Asked(a) != null
      && var inv: Invitation := Asked(a);
         && fresh(inv) && inv.alive && inv.refCount == 2 && inv.state == Open && inv.game == null
         && inv.src == a.source && inv.target == a.target
         && inv.srcRole == a.SourcesRole() && inv.targetRole == a.TargetsRole()
         && inv.srcSlot == a.slot && Gained(a.source, a.slot, inv)
         && inv.targetSlot == a.targetSlot && Gained(a.target, a.targetSlot, inv)
         && OnlyTables(a) && Repr == old(Repr) + {inv}
         && old(a.source.player) != null
    }

    /** The invitation is in both tables and the books. */
    twostate predicate Made(a: Asking)
      reads this, Repr, a.source, a.source.lst, a.target, a.target.lst
      reads if Asked(a) == null then {} else {Asked(a)}
    {
      && Entered(a)
      && var inv: Invitation := Asked(a);
         var p := Packet(a.target.fd, InvitedPkt, a.targetSlot % 256, a.TargetsRole(),
             Carried(Name(old(a.source.player).name)),
             a.ok);
         books == old(books).(invs := old(books).invs + {inv},
                              log := old(books).log + [Sent(p, Some(About(inv, a.target)))])
    }

    /** What an invitation by name did to all objects but the books (kept folded). */
    twostate predicate AskedHere(x: Answer)
      reads `Repr, Repr - {this}, x.source, x.source.lst, if x.target == null then {} else {x.target, x.target.lst}
      reads if x.slot < x.source.lst.Length && x.source.lst[x.slot] != null then {x.source.lst[x.slot]} else {}
    {
      forall k {:trigger MoveKey(k)} :: MoveKey(k) ==>
        if x.target == null then
          x.r == -1 && !x.made && !x.ok && Repr == old(Repr) && (forall o :: o in Repr && o != this ==> unchanged(o))
        else if x.made then
          Entered(x.Try()) && x.source != x.target && x.r == if x.ok then x.slot else -1
        else
          && NotMade(x.Try())
          && (x.source == x.target || old(x.source.len) == CAP || old(x.target.len) == CAP)
          && if x.source == x.target || old(x.source.len) == CAP then x.r == -1 else WasFirstFree(x.source, x.r)
    }

    /** The outcome of inviting by name (kept folded): nobody of that name, no invitation, or one made. */
    twostate predicate Answered(x: Answer)
      reads this, Repr, x.source, x.source.lst, if x.target == null then {} else {x.target, x.target.lst}
      reads if x.slot < x.source.lst.Length && x.source.lst[x.slot] != null then {x.source.lst[x.slot]} else {}
    {
      AskedHere(x) && if x.made then x.target != null && Made(x.Try()) else unchanged(this)
    }

    /** An invitation by user name, up to the books. */
    method InviteHere(source: Client, name: string, role: Role, ghost target: Client?,
                      ghost table: array?<Invitation?>, ghost player: Player)
      returns (r: int, ghost inv: Invitation?, ghost sent: seq<Packet>, ghost x: Answer)
      requires target == creg.Found(name) && creg.InUse()
      requires source.alive && source.TableOk() && source.refCount >= 1
      requires source.player == player && player.alive && player.refCount >= 1
      requires target != null ==>
                 target.alive && target.TableOk() && target.refCount >= 1
                     && (source != target ==> source.lst != target.lst)
      requires table == if target == null then null else target.lst
      modifies this`Repr
      modifies source`len, source.lst, source`refCount, source`alive, source`player, source`peak
      modifies target, table, player`refCount
      ensures fresh(Repr - old(Repr))
      ensures x.source == source && x.target == target && x.name == name && x.role == role && x.r == r
      ensures inv != null ==> fresh(inv) && target != null && Between(inv, source, target, role)
      ensures inv != null <==> x.made
      ensures inv != null ==> target != null && x.slot < source.lst.Length && source.lst[x.slot] == inv
      ensures inv == null ==> unchanged(this)
      ensures inv != null ==> inv.targetSlot == x.targetSlot && |sent| == 1 && sent[0].ok == x.ok
      ensures inv != null ==>
                sent[0] == Packet(target.fd, InvitedPkt, x.targetSlot % 256, TargetRole(role),
                    Carried(Name(player.name)), x.ok)
      ensures AskedHere(x)
    {
      ghost var me: object := this;
      assert me != source && me != source.lst && me != target && me != table && me != player;
      r, inv, sent := InviteUser(creg, source, name, role, target, table, player);
      if inv != null {
        Repr := Repr + {inv};
        x := Answer(source, target, name, role, true, inv.srcSlot, inv.targetSlot, sent[0].ok, r);
        assert Entered(x.Try());
      } else {
        x := Answer(source, target, name, role, false, 0, 0, false, r);
        assert target != null ==> NotMade(x.Try());
      }
    }

    /** An invitation by user name, with the books kept. */
    method InviteBooked(source: Client, name: string, role: Role, ghost target: Client?,
                        ghost table: array?<Invitation?>, ghost player: Player)
      returns (r: int, ghost inv: Invitation?, ghost ok: bool, ghost x: Answer)
      requires target == creg.Found(name) && creg.InUse()
      requires source.alive && source.TableOk() && source.refCount >= 1
      requires source.player == player && player.alive && player.refCount >= 1
      requires target != null ==>
                 target.alive && target.TableOk() && target.refCount >= 1
                     && (source != target ==> source.lst != target.lst)
      requires table == if target == null then null else target.lst
      modifies this`books, this`Repr
      modifies source`len, source.lst, source`refCount, source`alive, source`player, source`peak
      modifies target, table, player`refCount
      ensures fresh(Repr - old(Repr))
      ensures x.source == source && x.target == target && x.name == name && x.role == role && x.ok == ok && x.r == r
      ensures inv != null ==> fresh(inv) && target != null && Between(inv, source, target, role)
      ensures inv != null <==> x.made
      ensures inv != null ==> target != null && x.slot < source.lst.Length && source.lst[x.slot] == inv
      ensures Answered(x)
    {
      ghost var me: object := this;
      assert me != source && me != source.lst && me != target && me != table && me != player;
      ghost var sent;
      r, inv, sent, x := InviteHere(source, name, role, target, table, player);
      ok := x.ok;
      if inv != null {
        books := books.(invs := books.invs + {inv}, log := books.log + [Sent(sent[0], Some(About(inv, target)))]);
        InviteIsMade(x);
      }
    }

    twostate lemma InviteIsMade(x: Answer)
      requires AskedHere(x) && x.made && x.target != null && old(x.source.player) != null
      requires x.slot < x.source.lst.Length && x.source.lst[x.slot] != null
      requires var inv: Invitation, name := x.source.lst[x.slot], old(x.source.player).name;
               var p := Packet(x.target.fd, InvitedPkt, x.targetSlot % 256, TargetRole(x.role), Carried(Name(name)),
                   x.ok);
               books == old(books).(invs := old(books).invs + {inv},
                                    log := old(books).log + [Sent(p, Some(About(inv, x.target)))])
      ensures Made(x.Try())
    {
      assert MoveKey(0);
    }

    /** Everybody else's objects are as they were. */
    twostate lemma AskedOthers(a: Asking)
      requires old(Wired()) && old(Apart()) && a.source in old(books.clients) && a.target in old(books.clients)
      requires OnlyTables(a) && old(Repr) <= Repr
      ensures forall c :: c in old(books.clients) && c != a.source && c != a.target ==> unchanged(c) && unchanged(c.lst)
      ensures forall i :: i in old(books.invs) ==>
        unchanged(i) && (i.game != null ==> unchanged(i.game) && unchanged(i.game.board))
      ensures unchanged(creg) && unchanged(creg.arr) && unchanged(preg) && unchanged(preg.arr)
      ensures forall p :: p in preg.players ==> unchanged(p)
    {
    }

    twostate lemma AskedRatings(a: Asking)
      requires old(Wired()) && old(Apart()) && a.source in old(books.clients) && a.target in old(books.clients)
      requires OnlyTables(a) && old(Repr) <= Repr
      ensures preg.Ratings() == old(preg.Ratings())
    {
      AskedOthers(a);
      forall k | 0 <= k < |preg.players|
        ensures preg.Ratings()[k] == old(preg.Ratings())[k]
      {
        assert preg.players[k] in preg.players;
      }
    }

    twostate lemma GainedView(g: Gain)
      requires old(g.c.TableOk()) && g.k < g.c.lst.Length && g.c.lst[g.k] != null && Gained(g.c, g.k, g.c.lst[g.k])
      ensures FirstFree(old(ClientView(g.c)).slots) == g.k < |old(ClientView(g.c)).slots|
      ensures ClientView(g.c) == PutIn(old(ClientView(g.c)), g.k, g.c.lst[g.k])
    {
      assert Key(0);
      FirstFreeIs(old(g.c.lst[..]), g.k);
      assert g.c.lst[..] == old(g.c.lst[..])[g.k := g.c.lst[g.k]];
    }

    twostate lemma MadeWired(a: Asking)
      requires old(Wired()) && old(Apart()) && a.source in old(books.clients) && a.target in old(books.clients)
        && Made(a)
      ensures Wired()
    {
      AskedOthers(a);
    }

    twostate lemma MadeClients(a: Asking)
      requires old(Wired()) && old(Apart()) && a.source in old(books.clients) && a.target in old(books.clients)
        && a.source != a.target
      requires old(a.source.TableOk()) && old(a.target.TableOk()) && Made(a) && Wired()
      ensures var cs, inv := old(View()).clients, Asked(a);
              && a.slot == FirstFree(cs[a.source].slots) < |cs[a.source].slots|
              && a.targetSlot == FirstFree(cs[a.target].slots) < |cs[a.target].slots|
              && View().clients == cs[a.source := PutIn(cs[a.source], a.slot, inv)]
                                     [a.target := PutIn(cs[a.target], a.targetSlot, inv)]
    {
      AskedOthers(a);
      GainedView(Gain(a.source, a.slot));
      GainedView(Gain(a.target, a.targetSlot));
      forall c | c in books.clients && c != a.source && c != a.target
        ensures View().clients[c] == old(View()).clients[c]
      {
        assert ClientView(c) == old(ClientView(c));
      }
      ChangedMap(old(View()).clients, View().clients, a.source, a.target, ClientView(a.source), ClientView(a.target));
    }

    twostate lemma MadeInvs(a: Asking)
      requires old(Wired()) && old(Apart()) && a.source in old(books.clients) && a.target in old(books.clients)
        && Made(a) && Wired()
      ensures View().invs == old(View()).invs[Asked(a) := InvV(a.slot, a.targetSlot, None)]
    {
      AskedOthers(a);
      forall i | i in old(books.invs)
        ensures InvView(i) == old(InvView(i))
      {
      }
    }

    /** The state is the specified one. */
    twostate lemma MadeWorld(a: Asking)
      requires old(Wired()) && old(Apart()) && a.source in old(books.clients) && a.target in old(books.clients)
        && a.source != a.target
      requires old(a.source.TableOk()) && old(a.target.TableOk()) && Made(a) && Wired()
      ensures var w := old(View());
              && w.clients[a.source].player != null && Makes(w, a.source, a.target, a.SourcesRole(), a.TargetsRole())
              && (View(), if a.ok then a.slot else -1)
                   == Make(w, a.source, a.target, a.SourcesRole(), a.TargetsRole(), Asked(a), a.ok)
    {
      AskedRatings(a);
      MadeClients(a);
      MadeInvs(a);
      AskedOthers(a);
      assert View().clients[a.target] == ClientView(a.target);
    }

    twostate lemma MadeCounted(a: Asking)
      requires old(Wired()) && old(Apart()) && old(Counted())
      requires a.source in old(books.clients) && a.target in old(books.clients) && Made(a) && Wired()
      ensures Counted()
    {
      AskedOthers(a);
      forall c | c in books.clients
        ensures ClientCounted(c)
      {
        assert old(ClientCounted(c));
      }
      forall i | i in books.invs
        ensures InvCounted(i)
      {
        assert i in old(books.invs) ==> old(InvCounted(i));
      }
      forall p | p in preg.players
        ensures PlayerCounted(p)
      {
        assert old(PlayerCounted(p));
      }
    }

    twostate lemma MadeRegistry(a: Asking)
      requires old(Wired()) && old(Apart()) && old(RegistryOk())
      requires a.source in old(books.clients) && a.target in old(books.clients) && Made(a) && Wired()
      ensures RegistryOk() && Apart()
    {
      AskedOthers(a);
      assert creg.arr[..] == old(creg.arr[..]);
    }

    twostate lemma MadeKept(a: Asking)
      requires old(Wired()) && old(NothingLeaked()) && a.source in old(books.clients) && a.target in old(books.clients)
        && Made(a)
      ensures NothingLeaked()
    {
      forall o: object | o in Repr
        ensures Kept(o)
      {
        assert o in old(Repr) ==> old(Kept(o));
      }
    }

    /** What the specification makes of it is a good state. */
    twostate lemma MadeSpecified(a: Asking)
      requires old(Valid()) && old(Registered(a.source)) && old(Registered(a.target)) && a.source != a.target && Made(a)
      requires old(a.target.player) != null
      ensures var w := old(View());
              && a.source in w.clients && a.target in w.clients && w.clients[a.source].player != null
              && Good(Make(w, a.source, a.target, a.SourcesRole(), a.TargetsRole(), Asked(a), a.ok).0)
    {
      ghost var w := old(View());
      assert w.clients[a.source] == old(ClientView(a.source)) && w.clients[a.target] == old(ClientView(a.target));
      assert w.clients[a.source].player != w.clients[a.target].player by {
        assert Key(0);
      }
      MakeInv(w, a.source, a.target, a.SourcesRole(), a.TargetsRole(), Asked(a), a.ok);
    }

    /** An invitation was made between two registered clients. */
    twostate lemma MadeDone(a: Asking)
      requires old(Valid()) && old(Registered(a.source)) && old(Registered(a.target)) && a.source != a.target && Made(a)
      requires old(a.target.player) != null
      ensures Valid()
      ensures var w := old(View());
              && a.source in w.clients && a.target in w.clients
              && w.clients[a.source].player != null && Makes(w, a.source, a.target, a.SourcesRole(), a.TargetsRole())
              && (View(), if a.ok then a.slot else -1)
                   == Make(w, a.source, a.target, a.SourcesRole(), a.TargetsRole(), Asked(a), a.ok)
    {
      MadeSpecified(a);
      assert Key(0);
      assert old(ClientCounted(a.source)) && old(ClientCounted(a.target));
      MadeWired(a);
      MadeWorld(a);
      MadeCounted(a);
      MadeRegistry(a);
      MadeKept(a);
      AskedOthers(a);
    }

    // ---------------------------------------------------------------- no invitation is made

    twostate lemma NotMadeWorld(a: Asking)
      requires old(Wired()) && old(Apart()) && a.source in old(books.clients) && a.target in old(books.clients)
        && NotMade(a) && books == old(books)
      ensures Wired() && View() == old(View())
    {
      AskedOthers(a);
      AskedRatings(a);
      assert a.source.lst[..] == old(a.source.lst[..]) && a.target.lst[..] == old(a.target.lst[..]);
      forall c | c in books.clients
        ensures ClientView(c) == old(ClientView(c))
      {
      }
      forall i | i in books.invs
        ensures InvView(i) == old(InvView(i))
      {
      }
    }

    twostate lemma NotMadeInvariant(a: Asking)
      requires old(Wired()) && old(Invariant()) && a.source in old(books.clients) && a.target in old(books.clients)
        && NotMade(a) && books == old(books) && Wired()
      ensures Invariant()
    {
      AskedOthers(a);
      forall c | c in books.clients
        ensures ClientCounted(c)
      {
        assert old(ClientCounted(c));
      }
      forall i | i in books.invs
        ensures InvCounted(i)
      {
        assert old(InvCounted(i));
      }
      forall p | p in preg.players
        ensures PlayerCounted(p)
      {
        assert old(PlayerCounted(p));
      }
      assert old(ClientCounted(a.source)) && old(ClientCounted(a.target));
      KeptAll();
      assert creg.arr[..] == old(creg.arr[..]);
    }

    twostate lemma NotMadeDone(a: Asking)
      requires old(Valid()) && a.source in old(books.clients) && a.target in old(books.clients)
      requires NotMade(a) && books == old(books)
      ensures Valid() && View() == old(View())
    {
      assert Key(0);
      NotMadeWorld(a);
      NotMadeInvariant(a);
    }

    // ---------------------------------------------------------------- inviting by name

    lemma RegistryInUse()
      requires Valid()
      ensures creg.InUse()
    {
      assert Key(0);
      forall k | 0 <= k < creg.arr.Length && creg.arr[k] != null
        ensures creg.arr[k].alive && (creg.arr[k].player != null ==> creg.arr[k].player.alive)
      {
        assert ClientCounted(creg.arr[k]);
        assert creg.arr[k].player != null ==> PlayerCounted(creg.arr[k].player);
      }
    }

    /** What a look-up by user name finds. */
    lemma FoundFacts(name: string)
      requires Valid()
      ensures creg.InUse()
      ensures var t := creg.Found(name);
              if t == null then forall c :: c in View().clients ==> !Addressee(View(), name, c)
              else Registered(t) && Addressee(View(), name, t) && t.player != null
    {
      assert Key(0);
      RegistryInUse();
      forall c | c in View().clients && Addressee(View(), name, c)
        ensures creg.Found(name) != null
      {
        assert View().clients[c] == ClientView(c) && LoggedInAs(creg.arr[c.regSlot], name);
      }
    }

    /** Nobody is logged in under the name. */
    lemma InviteNobody(source: Client, name: string, role: Role)
      requires Valid() && source in books.clients && source.player != null && creg.Found(name) == null
      ensures Invites(View(), source, name, role, null, null, false, View(), -1)
    {
      FoundFacts(name);
      assert View().clients[source] == ClientView(source);
    }

    /** An invitation that fails is refused by the specification. */
    lemma InviteRefused(a: Asking, r: int)
      requires Valid() && a.source in books.clients && a.target in books.clients && a.source.player != null
      requires Addressee(View(), a.name, a.target)
      requires a.source == a.target || a.source.len == CAP || a.target.len == CAP
      requires if a.source == a.target || a.source.len == CAP then r == -1
               else 0 <= r < a.source.lst.Length && a.source.lst[r] == null && forall j :: 0 <= j < r ==>
                   a.source.lst[j] != null
      ensures Invites(View(), a.source, a.name, a.role, a.target, null, a.ok, View(), r)
    {
      ClientFacts(a.source);
      ClientFacts(a.target);
      assert Key(0);
      OccupiedBounds(a.source.lst[..], null);
      OccupiedBounds(a.target.lst[..], null);
      if a.source.len < CAP && a.source != a.target {
        FirstFreeIs(a.source.lst[..], r);
      }
    }

    twostate lemma InviteMade(x: Answer)
      requires old(Valid()) && old(Registered(x.source)) && old(x.source.player) != null && Answered(x) && x.made
      requires x.target != null && x.slot < x.source.lst.Length
      requires old(Registered(x.target)) && old(x.target.player) != null && old(Addressee(View(), x.name, x.target))
      ensures Valid()
      ensures books.holders == old(books.holders)
      ensures Invites(old(View()), x.source, x.name, x.role, x.target, x.source.lst[x.slot], x.ok, View(), x.r)
    {
      assert Made(x.Try()) && x.source != x.target && x.r == (if x.ok then x.slot else -1) by {
        assert MoveKey(0);
      }
      MadeDone(x.Try());
    }

    twostate lemma InviteFailed(x: Answer)
      requires old(Valid()) && old(Registered(x.source)) && old(x.source.player) != null && Answered(x) && !x.made
        && x.target != null
      requires old(Registered(x.target)) && old(x.target.player) != null && old(Addressee(View(), x.name, x.target))
      ensures Valid()
      ensures books.holders == old(books.holders)
      ensures Invites(old(View()), x.source, x.name, x.role, x.target, null, x.ok, View(), x.r)
    {
      assert MoveKey(0);
      NotMadeDone(x.Try());
      InviteRefused(x.Try(), x.r);
    }

    twostate lemma NobodyAsked(x: Answer)
      requires Answered(x) && x.target == null
      ensures x.r == -1 && !x.made && !x.ok && Repr == old(Repr) && unchanged(Repr)
    {
      assert MoveKey(0);
      forall o | o in Repr
        ensures unchanged(o)
      {
        assert o != this ==> unchanged(o);
      }
    }

    twostate lemma InviteDone(x: Answer)
      requires old(Valid()) && old(Registered(x.source)) && old(x.source.player) != null && Answered(x)
      requires x.made ==> x.target != null && x.slot < x.source.lst.Length
      requires if x.target == null then
                 old(Invites(View(), x.source, x.name, x.role, null, null, false, View(), -1))
               else
                 old(Registered(x.target)) && old(x.target.player) != null && old(Addressee(View(), x.name, x.target))
      ensures Valid()
      ensures books.holders == old(books.holders)
      ensures var made := if x.made then x.source.lst[x.slot] else null;
              Invites(old(View()), x.source, x.name, x.role, x.target, made, x.ok, View(), x.r)
    {
      if x.target == null {
        NobodyAsked(x);
      } else if x.made {
        InviteMade(x);
      } else {
        InviteFailed(x);
      }
    }

    /** What an invitation by name relies on. */
    lemma InviteFacts(source: Client, name: string, role: Role)
      requires Valid() && Registered(source) && source.player != null
      ensures creg.InUse() && source.alive && source.TableOk() && source.refCount >= 1
      ensures source.player.alive && source.player.refCount >= 1 && source in Repr && source.lst in Repr
      ensures source.player in Repr
      ensures var t := creg.Found(name);
              if t == null then Invites(View(), source, name, role, null, null, false, View(), -1)
              else
                && t in Repr && t.lst in Repr && t.alive && t.TableOk() && t.refCount >= 1
                && (source != t ==> source.lst != t.lst)
                && Registered(t) && t.player != null && Addressee(View(), name, t)
    {
      ClientFacts(source);
      FoundFacts(name);
      if creg.Found(name) == null {
        InviteNobody(source, name, role);
      } else {
        ClientFacts(creg.Found(name));
      }
    }

    /** invite_handler up to its reply (src/server.c:38-65). */
    method InviteEntry(source: Client, name: string, role: Role)
      returns (r: int, ghost target: Client?, ghost inv: Invitation?, ghost ok: bool)
      requires Valid() && Registered(source) && source.player != null
      modifies Repr
      ensures Valid() && fresh(Repr - old(Repr))
      ensures books.holders == old(books.holders)
      ensures Invites(old(View()), source, name, role, target, inv, ok, View(), r)
      ensures inv != null ==> fresh(inv) && target != null && Between(inv, source, target, role)
    {
      InviteFacts(source, name, role);
      target := creg.Found(name);
      ghost var table := if target == null then null else target.lst;
      ghost var x;
      r, inv, ok, x := InviteBooked(source, name, role, target, table, source.player);
      InviteDone(x);
    }

    // ---------------------------------------------------------------- clients come and go

    lemma RegistryFacts()
      requires Valid()
      ensures creg.Valid() && creg in Repr && creg.arr in Repr && creg.arr.Length == MAX_CLIENTS
      ensures forall k :: 0 <= k < creg.arr.Length && creg.arr[k] != null ==>
        Registered(creg.arr[k]) && creg.arr[k] in Repr
    {
      assert Key(0);
    }

    /** A new client is in the registry and the books. */
    twostate predicate Arrived(k: nat)
      reads this, Repr, creg, creg.arr
      reads if k < creg.arr.Length && creg.arr[k] != null then {creg.arr[k], creg.arr[k].lst} else {}
    {
      && k < MAX_CLIENTS == creg.arr.Length && old(creg.arr[k]) == null && creg.arr[k] != null
      && var c: Client := creg.arr[k];
         && fresh(c) && fresh(c.lst) && c.TableOk() && c.Empty()
         && c.player == null && c.len == 0 && c.refCount == 1 && c.alive && c.peak == 0 && c.regSlot == k
         && creg.arr[..] == old(creg.arr[..])[k := c] && creg.len == old(creg.len) + 1
         && Repr == old(Repr) + {c, c.lst}
         && books == old(books).(clients := old(books).clients + {c})
         && forall o: object {:trigger o in old(Repr)} :: o in old(Repr) && o != this && o != creg && o != creg.arr ==>
              unchanged(o)
    }

    method RegisterBooked(fd: int) returns (c: Client?)
      requires creg.Valid()
      modifies this`books, this`Repr, creg`len, creg.arr
      ensures fresh(Repr - old(Repr))
      ensures c == null <==> old(creg.len) == MAX_CLIENTS
      ensures c == null ==> Repr == old(Repr) && unchanged(old(Repr))
      ensures c != null ==>
        c.fd == fd && 0 <= c.regSlot < creg.arr.Length && creg.arr[c.regSlot] == c && Arrived(c.regSlot)
    {
      c := creg.Register(fd);
      if c != null {
        books := books.(clients := books.clients + {c});
        Repr := Repr + {c, c.lst};
      }
    }

    twostate lemma ArrivedOthers(k: nat)
      requires old(Wired()) && Arrived(k)
      ensures forall c :: c in old(books.clients) ==> unchanged(c) && unchanged(c.lst)
      ensures forall i :: i in books.invs ==>
        unchanged(i) && (i.game != null ==> unchanged(i.game) && unchanged(i.game.board))
      ensures unchanged(preg) && unchanged(preg.arr)
      ensures forall p :: p in preg.players ==> unchanged(p)
      ensures Wired()
    {
    }

    twostate lemma ArrivedRatings(k: nat)
      requires old(Wired()) && Arrived(k)
      ensures preg.Ratings() == old(preg.Ratings())
    {
      ArrivedOthers(k);
      forall j | 0 <= j < |preg.players|
        ensures preg.Ratings()[j] == old(preg.Ratings())[j]
      {
        assert preg.players[j] in preg.players;
      }
    }

    twostate lemma ArrivedWorld(k: nat)
      requires old(Wired()) && Arrived(k) && Wired()
      ensures View() == old(View()).(clients := old(View()).clients[creg.arr[k] := NewClient()])
    {
      ArrivedOthers(k);
      ArrivedRatings(k);
      forall c | c in old(books.clients)
        ensures ClientView(c) == old(ClientView(c))
      {
      }
      forall i | i in books.invs
        ensures InvView(i) == old(InvView(i))
      {
      }
      assert creg.arr[k].lst[..] == NewClient().slots;
    }

    twostate lemma ArrivedKept(k: nat)
      requires old(Wired()) && old(NothingLeaked()) && Arrived(k)
      ensures NothingLeaked()
    {
      forall o: object | o in Repr
        ensures Kept(o)
      {
        assert o in old(Repr) ==> old(Kept(o));
      }
    }

    twostate lemma ArrivedInvariant(k: nat)
      requires old(Wired()) && old(Invariant()) && Arrived(k) && Wired()
      ensures Invariant()
    {
      ArrivedOthers(k);
      ArrivedKept(k);
      OccupiedUpdate(old(creg.arr[..]), null, k, creg.arr[k]);
      forall c | c in books.clients
        ensures ClientCounted(c)
      {
        assert c in old(books.clients) ==> old(ClientCounted(c));
      }
      forall i | i in books.invs
        ensures InvCounted(i)
      {
        assert old(InvCounted(i));
      }
      forall p | p in preg.players
        ensures PlayerCounted(p)
      {
        assert old(PlayerCounted(p));
      }
    }

    twostate lemma ArrivedDone(k: nat)
      requires old(Valid()) && Arrived(k)
      ensures Valid()
      ensures books.holders == old(books.holders)
      ensures creg.arr[k] !in old(View()).clients
      ensures View() == old(View()).(clients := old(View()).clients[creg.arr[k] := NewClient()])
    {
      assert Key(0);
      ArrivedOthers(k);
      ArrivedWorld(k);
      ArrivedInvariant(k);
      ConnectInv(old(View()), creg.arr[k]);
    }

    /** creg_register. */
    method ConnectEntry(fd: int) returns (c: Client?)
      requires Valid()
      modifies Repr
      ensures Valid() && fresh(Repr - old(Repr))
      ensures books.holders == old(books.holders)
      ensures c == null ==> View() == old(View())
      ensures c == null <==> old(creg.len) == MAX_CLIENTS
      ensures c != null ==> fresh(c) && c.fd == fd && Registered(c)
      ensures c != null ==> View() == old(View()).(clients := old(View()).clients[c := NewClient()])
    {
      RegistryFacts();
      c := RegisterBooked(fd);
      if c != null {
        ArrivedDone(c.regSlot);
      }
    }

    /** A client has left the registry, and is freed if that was the last reference. */
    twostate predicate Departed(c: Client)
      reads this, Repr, creg, creg.arr, c, c.lst
    {
      && 0 <= old(c.regSlot) < creg.arr.Length && old(creg.arr[c.regSlot]) == c
      && creg.arr[..] == old(creg.arr[..])[old(c.regSlot) := null] && creg.len == old(creg.len) - 1
      && c.Released(old(c.refCount), old(c.player)) && c.regSlot == -1
      && c.len == old(c.len) && c.peak == old(c.peak) && unchanged(c.lst)
      && Repr == old(Repr)
      && books == old(books).(clients := old(books).clients - Freed(c))
      && forall o: object {:trigger o in old(Repr)} ::
           o in old(Repr) && o in Repr && o != this && o != creg && o != creg.arr && o != c ==> unchanged(o)
    }

    method UnregisterBooked(client: Client)
      requires creg.Valid() && client.Releasable() && 0 <= client.regSlot < creg.arr.Length
        && creg.arr[client.regSlot] == client
      modifies this`books, creg`len, creg.arr, client`refCount, client`alive, client`player, client`regSlot
      ensures Departed(client)
    {
      assert creg.arr[..][client.regSlot] == client;
      var r := creg.Unregister(client);
      if r == -1 {
        assert false;
      }
      books := books.(clients := books.clients - Freed(client));
    }

    twostate lemma DepartedOthers(c: Client)
      requires old(Wired()) && old(Apart()) && c in old(books.clients) && Departed(c)
      ensures forall d :: d in books.clients && d != c ==> unchanged(d) && unchanged(d.lst)
      ensures forall i :: i in books.invs ==>
        unchanged(i) && (i.game != null ==> unchanged(i.game) && unchanged(i.game.board))
      ensures unchanged(preg) && unchanged(preg.arr)
      ensures forall p :: p in preg.players ==> unchanged(p)
      ensures Wired()
    {
    }

    twostate lemma DepartedRatings(c: Client)
      requires old(Wired()) && old(Apart()) && c in old(books.clients) && Departed(c)
      ensures preg.Ratings() == old(preg.Ratings())
    {
      DepartedOthers(c);
      forall j | 0 <= j < |preg.players|
        ensures preg.Ratings()[j] == old(preg.Ratings())[j]
      {
        assert preg.players[j] in preg.players;
      }
    }

    twostate lemma DepartedClients(c: Client)
      requires old(Wired()) && old(Apart()) && c in old(books.clients) && old(ClientCounted(c)) && old(c.regSlot) != -1
      requires Departed(c) && Wired()
      ensures c in old(View()).clients && View().clients == Disconnect(old(View()), c).clients
    {
      DepartedOthers(c);
      ghost var s := old(ClientView(c)).(registered := false);
      assert Occupied(s.slots, null) == old(c.len) && c.lst[..] == s.slots by {
        assert Key(0);
      }
      forall d | d in books.clients && d != c
        ensures View().clients[d] == old(View()).clients[d]
      {
        assert ClientView(d) == old(ClientView(d));
      }
      SettledOne(old(View()).clients, View().clients, c, s);
    }

    twostate lemma DepartedWorld(c: Client)
      requires old(Wired()) && old(Apart()) && c in old(books.clients) && old(ClientCounted(c)) && old(c.regSlot) != -1
        && Departed(c) && Wired()
      ensures c in old(View()).clients && View() == Disconnect(old(View()), c)
    {
      DepartedOthers(c);
      DepartedRatings(c);
      DepartedClients(c);
      forall i | i in books.invs
        ensures InvView(i) == old(InvView(i))
      {
      }
    }

    twostate lemma DepartedKept(c: Client)
      requires old(Wired()) && old(NothingLeaked()) && c in old(books.clients) && Departed(c)
      ensures NothingLeaked()
    {
      forall o: object | o in Repr
        ensures Kept(o)
      {
        assert old(Kept(o));
      }
    }

    twostate lemma DepartedInvariant(c: Client)
      requires old(Wired()) && old(Invariant()) && c in old(books.clients) && Departed(c) && Wired()
      ensures Invariant()
    {
      DepartedOthers(c);
      DepartedKept(c);
      OccupiedUpdate(old(creg.arr[..]), null, old(c.regSlot), null);
      forall d | d in books.clients
        ensures ClientCounted(d)
      {
        assert old(ClientCounted(d));
      }
      forall i | i in books.invs
        ensures InvCounted(i)
      {
        assert old(InvCounted(i));
      }
      forall p | p in preg.players
        ensures PlayerCounted(p)
      {
        assert old(PlayerCounted(p));
      }
    }

    twostate lemma DepartedDone(c: Client)
      requires old(Valid()) && c in old(books.clients) && old(c.regSlot) != -1 && Departed(c)
      ensures Valid()
      ensures books.holders == old(books.holders)
      ensures c in old(View()).clients && View() == Disconnect(old(View()), c)
    {
      assert Key(0);
      assert old(ClientCounted(c));
      DepartedOthers(c);
      DepartedWorld(c);
      DepartedInvariant(c);
      DisconnectInv(old(View()), c);
    }

    /** creg_unregister: the client is freed unless an invitation still holds it. */
    method DisconnectEntry(client: Client)
      requires Valid() && Registered(client)
      modifies Repr
      ensures Valid() && Repr == old(Repr)
      ensures books.holders == old(books.holders)
      ensures client in old(View()).clients && View() == Disconnect(old(View()), client)
      ensures client.alive <==> client in View().clients
    {
      RegistryFacts();
      ClientFacts(client);
      assert 0 <= client.regSlot < MAX_CLIENTS && creg.arr[client.regSlot] == client by {
        assert Key(0);
      }
      UnregisterBooked(client);
      DepartedDone(client);
    }

    // ---------------------------------------------------------------- players

    /** The name has a player now, with one more counted reference, held for the client. */
    twostate predicate Enlisted(x: Holding)
      reads this, Repr, preg, preg.arr, preg.players
    {
      && preg.Valid() && x.id < |preg.players|
      && var p := preg.players[x.id];
      && (if x.id < |old(preg.players)| then preg.players == old(preg.players)
          else fresh(p) && preg.players == old(preg.players) + [p])
      && p.alive && p.rating == (if x.id < |old(preg.players)| then old(preg.players[x.id].rating) else INITIAL_RATING)
      && p.refCount == (if x.id < |old(preg.players)| then old(preg.players[x.id].refCount) else 1) + 1
      && Repr == old(Repr) + {p, preg.arr} && fresh(Repr - old(Repr))
      && books == old(books).(holders := old(books).holders[p := HoldersOf(p)])
      && HoldersOf(p) == (if p in old(books.holders) then old(books.holders)[p] else multiset{}) + multiset{x.client}
      && (forall o: object {:trigger o in old(Repr)} ::
            o in old(Repr) && o in Repr && o != this && o != preg && o != old(preg.arr) && o != p ==> unchanged(o))
    }

    method EnlistBooked(name: string, holder: Client) returns (p: Player)
      requires preg.Valid() && preg.arr in Repr && forall q :: q in preg.players ==> q.alive && q in Repr
      modifies this`books, this`Repr, preg, preg.arr, preg.players`refCount
      ensures p.name == name && p.id < |preg.players| && preg.players[p.id] == p
      ensures p.id < |old(preg.players)| || forall q :: q in old(preg.players) ==> q.name != name
      ensures Enlisted(Holding(holder, p.id))
    {
      ghost var known := preg.players;
      p := preg.Register(name);
      assert p.id >= |known| ==> p !in old(books.holders);
      books := books.(holders := books.holders[p := HoldersOf(p) + multiset{holder}]);
      Repr := Repr + {p, preg.arr};
      assert preg.Valid();
    }

    twostate lemma EnlistedOthers(x: Holding)
      requires old(Wired()) && Enlisted(x)
      ensures forall c :: c in books.clients ==> unchanged(c) && unchanged(c.lst)
      ensures forall i :: i in books.invs ==>
        unchanged(i) && (i.game != null ==> unchanged(i.game) && unchanged(i.game.board))
      ensures unchanged(creg) && unchanged(creg.arr)
      ensures forall q :: q in old(preg.players) && q != preg.players[x.id] ==> unchanged(q)
      ensures Wired()
    {
    }

    twostate lemma EnlistedRatings(x: Holding)
      requires old(Wired()) && old(preg.Valid()) && Enlisted(x)
      ensures preg.Ratings() == old(preg.Ratings()) + if x.id < |old(preg.players)| then [] else [INITIAL_RATING]
    {
      EnlistedOthers(x);
      forall j | 0 <= j < |old(preg.players)|
        ensures preg.Ratings()[j] == old(preg.Ratings())[j]
      {
        assert preg.players[j] in preg.players && preg.players[j] in old(preg.players);
      }
    }

    twostate lemma EnlistedViews(x: Holding)
      requires old(Wired()) && old(preg.Valid()) && Enlisted(x) && Wired()
      ensures View().clients == old(View()).clients && View().invs == old(View()).invs
    {
      EnlistedOthers(x);
      forall c | c in books.clients
        ensures ClientView(c) == old(ClientView(c))
      {
      }
      forall i | i in books.invs
        ensures InvView(i) == old(InvView(i))
      {
      }
    }

    twostate lemma EnlistedWorld(x: Holding)
      requires old(Wired()) && old(preg.Valid()) && Enlisted(x) && Wired()
      ensures View() ==
              if x.id < |old(preg.players)| then old(View()) else Enroll(old(View()), preg.players[x.id])
    {
      EnlistedRatings(x);
      EnlistedViews(x);
    }

    twostate lemma EnlistedPlayers(x: Holding)
      requires old(Wired()) && old(Counted()) && Enlisted(x) && Wired()
      ensures forall p {:trigger PlayerCounted(p)} :: p in preg.players ==> PlayerCounted(p)
    {
      EnlistedOthers(x);
      forall p | p in preg.players
        ensures PlayerCounted(p)
      {
        assert p in old(preg.players) ==> old(PlayerCounted(p));
      }
    }

    twostate lemma EnlistedCounted(x: Holding)
      requires old(Wired()) && old(Apart()) && old(Counted()) && Enlisted(x) && Wired()
      ensures Counted()
    {
      EnlistedOthers(x);
      forall c | c in books.clients
        ensures ClientCounted(c)
      {
        assert old(ClientCounted(c));
      }
      forall i | i in books.invs
        ensures InvCounted(i)
      {
        assert old(InvCounted(i));
      }
      EnlistedPlayers(x);
    }

    twostate lemma EnlistedInvariant(x: Holding)
      requires old(Wired()) && old(Invariant()) && Enlisted(x) && Wired()
      ensures Invariant()
    {
      EnlistedOthers(x);
      EnlistedCounted(x);
      KeptAll();
      assert creg.arr[..] == old(creg.arr[..]);
    }

    twostate lemma EnlistedDone(x: Holding)
      requires old(Valid()) && Enlisted(x)
      requires x.id < |old(preg.players)| || forall q :: q in old(preg.players) ==> q.name != preg.players[x.id].name
      requires Sendable(preg.players[x.id].name)
      ensures Valid()
      ensures View() == if x.id < |old(preg.players)| then old(View()) else Enroll(old(View()), preg.players[x.id])
    {
      assert Key(0);
      EnlistedOthers(x);
      EnlistedWorld(x);
      EnlistedInvariant(x);
      if x.id >= |old(preg.players)| {
        EnrollInv(old(View()), preg.players[x.id]);
      }
    }

    lemma PlayerRegistryFacts()
      requires Valid()
      ensures preg.Valid() && preg in Repr && preg.arr in Repr
      ensures forall q :: q in preg.players ==> q.alive && q.refCount >= 1 && q in Repr
      ensures View().players == preg.players
    {
      assert Key(0);
      forall q | q in preg.players
        ensures q.alive && q.refCount >= 1
      {
        assert PlayerCounted(q);
      }
    }

    /** preg_register, on behalf of a client's thread; the name is from a payload, so its length has sixteen bits. */
    method EnlistEntry(name: string, holder: Client) returns (p: Player)
      requires Valid() && Sendable(name)
      modifies Repr
      ensures Valid() && fresh(Repr - old(Repr))
      ensures p.name == name && p in preg.players
      ensures books.holders == old(books.holders)[p := HoldersOf(p)]
      ensures HoldersOf(p) == (if p in old(books.holders) then old(books.holders)[p] else multiset{}) + multiset{holder}
      ensures View() == if p in old(View()).players then old(View()) else Enroll(old(View()), p)
      ensures p !in old(View()).players ==> p.id == |old(View()).players| && forall q :: q in old(View()).players ==>
        q.name != name
    {
      PlayerRegistryFacts();
      p := EnlistBooked(name, holder);
      EnlistedDone(Holding(holder, p.id));
    }

    // ---------------------------------------------------------------- logging in

    /** The client is logged in as the player of this number, which is counted once more for it. */
    twostate predicate LoggedIn(x: Holding)
      reads this, Repr, preg, x.client, preg.players
    {
      && x.id < |preg.players| && unchanged(preg) && Repr == old(Repr)
      && var p := preg.players[x.id];
      && x.client.player == p && p.refCount == old(p.refCount) + 1 && p.alive == old(p.alive)
           && p.rating == old(p.rating)
      && x.client.len == old(x.client.len) && x.client.refCount == old(x.client.refCount)
           && x.client.alive == old(x.client.alive)
      && x.client.peak == old(x.client.peak) && x.client.regSlot == old(x.client.regSlot)
      && books == old(books).(holders := old(books).holders[p := old(HoldersOf(p)) + multiset{x.client}])
      && (forall o: object {:trigger o in old(Repr)} ::
            o in old(Repr) && o in Repr && o != this && o != x.client && o != p ==> unchanged(o))
    }

    method LoginBooked(client: Client, player: Player, ghost found: Client?) returns (r: int)
      requires found == creg.Found(player.name) && creg.InUse()
      requires found != null ==> found.refCount >= 1
      requires client.alive && player.alive && player.id < |preg.players| && preg.players[player.id] == player
      modifies this`books, client`player, player`refCount, found
      ensures r == if old(client.player) == null && found == null then 0 else -1
      ensures r == 0 ==> LoggedIn(Holding(client, player.id))
      ensures r == -1 ==> Repr == old(Repr) && unchanged(old(Repr))
    {
      r := LoginClient(creg, client, player, found);
      if r == 0 {
        books := books.(holders := books.holders[player := HoldersOf(player) + multiset{client}]);
      }
    }

    twostate lemma LoggedInOthers(x: Holding)
      requires old(Wired()) && old(Apart()) && x.client in old(books.clients) && LoggedIn(x)
      ensures forall c :: c in books.clients && c != x.client ==> unchanged(c)
      ensures forall c :: c in books.clients ==> unchanged(c.lst)
      ensures forall i :: i in books.invs ==>
        unchanged(i) && (i.game != null ==> unchanged(i.game) && unchanged(i.game.board))
      ensures unchanged(creg) && unchanged(creg.arr) && unchanged(preg) && unchanged(preg.arr)
      ensures forall q :: q in preg.players && q != preg.players[x.id] ==> unchanged(q)
      ensures Wired()
    {
    }

    twostate lemma LoggedInRatings(x: Holding)
      requires old(Wired()) && old(Apart()) && x.client in old(books.clients) && LoggedIn(x)
      ensures preg.Ratings() == old(preg.Ratings())
    {
      LoggedInOthers(x);
      forall j | 0 <= j < |preg.players|
        ensures preg.Ratings()[j] == old(preg.Ratings())[j]
      {
        assert preg.players[j] in preg.players;
      }
    }

    twostate lemma LoggedInWorld(x: Holding)
      requires old(Wired()) && old(Apart()) && x.client in old(books.clients) && LoggedIn(x) && Wired()
      ensures var v := old(ClientView(x.client)).(player := preg.players[x.id]);
              View() == old(View()).(clients := old(View()).clients[x.client := v])
    {
      LoggedInOthers(x);
      LoggedInRatings(x);
      forall c | c in books.clients && c != x.client
        ensures View().clients[c] == old(View()).clients[c]
      {
        assert ClientView(c) == old(ClientView(c));
      }
      assert x.client.lst[..] == old(x.client.lst[..]);
      ChangedOne(old(View()).clients, View().clients, x.client,
          old(ClientView(x.client)).(player := preg.players[x.id]));
      forall i | i in books.invs
        ensures InvView(i) == old(InvView(i))
      {
      }
    }

    twostate lemma LoggedInClients(x: Holding)
      requires old(Wired()) && old(Apart()) && old(Counted()) && x.client in old(books.clients) && LoggedIn(x)
        && Wired()
      ensures forall c {:trigger ClientCounted(c)} :: c in books.clients ==> ClientCounted(c)
    {
      LoggedInOthers(x);
      ghost var me := preg.players[x.id];
      assert HoldersOf(me) == old(HoldersOf(me)) + multiset{x.client};
      assert forall q :: q in preg.players && q != me ==> HoldersOf(q) == old(HoldersOf(q));
      forall c | c in books.clients
        ensures ClientCounted(c)
      {
        assert old(ClientCounted(c));
      }
    }

    twostate lemma LoggedInCounted(x: Holding)
      requires old(Wired()) && old(Apart()) && old(Counted()) && x.client in old(books.clients) && LoggedIn(x)
        && Wired()
      ensures Counted()
    {
      LoggedInOthers(x);
      ghost var me := preg.players[x.id];
      assert HoldersOf(me) == old(HoldersOf(me)) + multiset{x.client};
      assert forall q :: q in preg.players && q != me ==> HoldersOf(q) == old(HoldersOf(q));
      LoggedInClients(x);
      forall i | i in books.invs
        ensures InvCounted(i)
      {
        assert old(InvCounted(i));
      }
      forall p | p in preg.players
        ensures PlayerCounted(p)
      {
        assert old(PlayerCounted(p));
      }
    }

    twostate lemma LoggedInInvariant(x: Holding)
      requires old(Wired()) && old(Invariant()) && x.client in old(books.clients) && LoggedIn(x) && Wired()
      ensures Invariant()
    {
      LoggedInOthers(x);
      LoggedInCounted(x);
      KeptAll();
      assert creg.arr[..] == old(creg.arr[..]);
    }

    twostate lemma LoggedInDone(x: Holding)
      requires old(Valid()) && old(Registered(x.client)) && LoggedIn(x)
      requires x.client in old(View()).clients
      requires Login(old(View()), x.client, preg.players[x.id]).1 == 0
      ensures Valid()
      ensures (View(), 0) == Login(old(View()), x.client, preg.players[x.id])
    {
      assert Key(0);
      LoggedInOthers(x);
      LoggedInWorld(x);
      LoggedInInvariant(x);
      LoginInv(old(View()), x.client, preg.players[x.id]);
    }

    /** Whether a login is refused can be seen on the registry. */
    lemma LoginHere(client: Client, p: Player)
      requires Valid() && client in books.clients && p in preg.players
      ensures client in View().clients
      ensures Login(View(), client, p).1 == if client.player == null && creg.Found(p.name) == null then 0 else -1
      ensures Login(View(), client, p).1 == -1 ==> Login(View(), client, p).0 == View()
      ensures p.id < |preg.players| && preg.players[p.id] == p
    {
      assert Key(0);
      FoundFacts(p.name);
      ghost var w := View();
      assert w.clients[client] == ClientView(client);
      if d: Client :| d in w.clients && w.clients[d].registered && w.clients[d].player == p {
        assert Addressee(w, p.name, d);
      }
      ghost var t := creg.Found(p.name);
      if t != null {
        assert PlayerOk(w, t) && w.clients[t] == ClientView(t);
        assert w.clients[t].player == p;
      }
    }

    /** client_login. */
    method LoginEntry(client: Client, player: Player) returns (r: int)
      requires Valid() && Registered(client) && player in preg.players
      modifies Repr
      ensures Valid() && Repr == old(Repr)
      ensures client in old(View()).clients && (View(), r) == Login(old(View()), client, player)
      ensures r == 0 ==>
                client.player == player
                && books.holders == old(books.holders)[player := old(HoldersOf(player)) + multiset{client}]
      ensures r == -1 ==> client.player == old(client.player) && books.holders == old(books.holders)
    {
      ClientFacts(client);
      PlayerRegistryFacts();
      FoundFacts(player.name);
      LoginHere(client, player);
      ghost var found := creg.Found(player.name);
      if found != null {
        ClientFacts(found);
      }
      r := LoginBooked(client, player, found);
      if r == 0 {
        LoggedInDone(Holding(client, player.id));
      }
    }

    // ---------------------------------------------------------------- giving a player up

    /** One reference to the player of this number is gone, and on logout the client's player with it. */
    twostate predicate Dropped(x: Dropping)
      reads this, Repr, preg, x.client, preg.players
    {
      && x.id < |preg.players| && unchanged(preg) && Repr == old(Repr)
      && var p := preg.players[x.id];
      && x.client.player == (if x.out then null else old(x.client.player))
      && p.refCount == old(p.refCount) - 1 && p.alive && p.rating == old(p.rating)
      && x.client.len == old(x.client.len) && x.client.refCount == old(x.client.refCount)
           && x.client.alive == old(x.client.alive)
      && x.client.peak == old(x.client.peak) && x.client.regSlot == old(x.client.regSlot)
      && books == old(books).(holders := old(books).holders[p := old(HoldersOf(p)) - multiset{x.client}])
      && (forall o: object {:trigger o in old(Repr)} ::
            o in old(Repr) && o in Repr && o != this && o != x.client && o != p ==> unchanged(o))
    }

    /** What is given up is held, and on logout nothing else needs the client's player. */
    ghost predicate Droppable(x: Dropping)
      reads this, Repr, preg, x.client, preg.players
    {
      && x.client in books.clients && x.id < |preg.players|
      && var p := preg.players[x.id];
      && p.id == x.id && p.alive
      && HoldersOf(p)[x.client] >= (if x.client.player == p && !x.out then 2 else 1)
      && (x.out ==> x.client.player == p && x.client.len == 0)
    }

    twostate lemma DroppedOthers(x: Dropping)
      requires old(Wired()) && old(Apart()) && old(Droppable(x)) && Dropped(x)
      ensures forall c :: c in books.clients && c != x.client ==> unchanged(c)
      ensures forall c :: c in books.clients ==> unchanged(c.lst)
      ensures forall i :: i in books.invs ==>
        unchanged(i) && (i.game != null ==> unchanged(i.game) && unchanged(i.game.board))
      ensures unchanged(creg) && unchanged(creg.arr) && unchanged(preg) && unchanged(preg.arr)
      ensures forall q :: q in preg.players && q != preg.players[x.id] ==> unchanged(q)
      ensures Wired()
    {
    }

    twostate lemma DroppedRatings(x: Dropping)
      requires old(Wired()) && old(Apart()) && old(Droppable(x)) && Dropped(x)
      ensures preg.Ratings() == old(preg.Ratings())
    {
      DroppedOthers(x);
      forall j | 0 <= j < |preg.players|
        ensures preg.Ratings()[j] == old(preg.Ratings())[j]
      {
        assert preg.players[j] in preg.players;
      }
    }

    twostate lemma DroppedWorld(x: Dropping)
      requires old(Wired()) && old(Apart()) && old(Droppable(x)) && Dropped(x) && Wired()
      ensures View() == if x.out then Leave(old(View()), x.client) else old(View())
    {
      DroppedOthers(x);
      DroppedRatings(x);
      forall c | c in books.clients && c != x.client
        ensures View().clients[c] == old(View()).clients[c]
      {
        assert ClientView(c) == old(ClientView(c));
      }
      assert x.client.lst[..] == old(x.client.lst[..]);
      ChangedOne(old(View()).clients, View().clients, x.client, ClientView(x.client));
      forall i | i in books.invs
        ensures InvView(i) == old(InvView(i))
      {
      }
    }

    twostate lemma DroppedClients(x: Dropping)
      requires old(Wired()) && old(Apart()) && old(Counted()) && old(Droppable(x)) && Dropped(x) && Wired()
      ensures forall c {:trigger ClientCounted(c)} :: c in books.clients ==> ClientCounted(c)
    {
      DroppedOthers(x);
      ghost var me := preg.players[x.id];
      assert HoldersOf(me) == old(HoldersOf(me)) - multiset{x.client};
      assert forall q :: q in preg.players && q != me ==> HoldersOf(q) == old(HoldersOf(q));
      forall c | c in books.clients
        ensures ClientCounted(c)
      {
        assert old(ClientCounted(c));
        assert c != x.client && c.player != null ==> HoldersOf(c.player)[c] == old(HoldersOf(c.player))[c];
      }
    }

    twostate lemma DroppedCounted(x: Dropping)
      requires old(Wired()) && old(Apart()) && old(Counted()) && old(Droppable(x)) && Dropped(x) && Wired()
      ensures Counted()
    {
      DroppedOthers(x);
      DroppedClients(x);
      ghost var me := preg.players[x.id];
      assert HoldersOf(me) == old(HoldersOf(me)) - multiset{x.client};
      assert |HoldersOf(me)| == |old(HoldersOf(me))| - 1;
      assert forall q :: q in preg.players && q != me ==> HoldersOf(q) == old(HoldersOf(q));
      forall i | i in books.invs
        ensures InvCounted(i)
      {
        assert old(InvCounted(i));
      }
      forall p | p in preg.players
        ensures PlayerCounted(p)
      {
        assert old(PlayerCounted(p));
      }
    }

    twostate lemma DroppedInvariant(x: Dropping)
      requires old(Wired()) && old(Invariant()) && old(Droppable(x)) && Dropped(x) && Wired()
      ensures Invariant()
    {
      DroppedOthers(x);
      DroppedCounted(x);
      KeptAll();
      assert creg.arr[..] == old(creg.arr[..]);
    }

    twostate lemma DroppedDone(x: Dropping)
      requires old(Valid()) && old(Droppable(x)) && Dropped(x)
      requires x.client in old(View()).clients && (x.out ==> Occupied(old(View()).clients[x.client].slots, null) == 0)
      ensures Valid()
      ensures View() == if x.out then Leave(old(View()), x.client) else old(View())
    {
      assert Key(0);
      DroppedOthers(x);
      DroppedWorld(x);
      DroppedInvariant(x);
      if x.out {
        LeaveInv(old(View()), x.client);
      }
    }

    method DropBooked(client: Client, player: Player, out: bool)
      requires player.id < |preg.players| && preg.players[player.id] == player && player.alive && player.refCount >= 2
      modifies this`books, player`refCount, client`player
      ensures out ==> client.player == null
      ensures Dropped(Dropping(client, player.id, out))
    {
      player.Unref();
      if out {
        client.player := null;
      }
      books := books.(holders := books.holders[player := HoldersOf(player) - multiset{client}]);
    }

    /** A player's count, from what is held. */
    lemma HoldingFacts(client: Client, p: Player)
      requires Valid() && client in books.clients && p in preg.players && HoldersOf(p)[client] >= 1
      ensures p in Repr && p.alive && p.refCount >= 2 && p.id < |preg.players| && preg.players[p.id] == p
    {
      assert Key(0);
      assert PlayerCounted(p);
    }

    /** player_unref by the client's service thread (src/server.c:164, 199). */
    method ReleaseEntry(client: Client, player: Player)
      requires Valid() && client in books.clients && player in preg.players
      requires HoldersOf(player)[client] >= if client.player == player then 2 else 1
      modifies Repr
      ensures Valid() && Repr == old(Repr) && View() == old(View())
      ensures books.holders == old(books.holders)[player := old(HoldersOf(player)) - multiset{client}]
      ensures client.player == old(client.player)
    {
      HoldingFacts(client, player);
      ClientFacts(client);
      DropBooked(client, player, false);
      DroppedDone(Dropping(client, player.id, false));
    }

    // ---------------------------------------------------------------- logging out

    lemma ReadyHere(client: Client, id: nat)
      requires Valid() && Ready(View(), client, id)
      ensures Registered(client)
    {
      assert View().clients[client] == ClientView(client);
    }

    /** The body of the loop of client_logout (src/client.c:234-238). */
    method ClearEntry(client: Client, id: nat) returns (ghost o: Outcome)
      requires Valid() && Registered(client) && id < CAP
      modifies Repr
      ensures Valid() && Repr == old(Repr) && Registered(client)
      ensures books.holders == old(books.holders)
      ensures ClearsSlot(old(View()), client, id, o, pow10, View())
    {
      ClientFacts(client);
      ghost var w := View();
      var r1;
      ghost var oks;
      r1, oks := ResignEntry(client, id);
      ghost var w1 := View();
      QuitsReady(w, client, id, oks, pow10, w1, r1);
      ReadyHere(client, id);
      ghost var w2, r2, r3 := w1, 0, 0;
      if r1 == -1 {
        var r := WithdrawEntry(client, id, true);
        w2, r2 := View(), r;
        WithdrawsReady(w1, client, id, true, r == 0, w2, r);
        ReadyHere(client, id);
        if r == -1 {
          r := WithdrawEntry(client, id, false);
          r3 := r;
          WithdrawsReady(w2, client, id, false, r == 0, View(), r);
          ReadyHere(client, id);
        }
      }
      o := Outcomes(oks, r2 == 0, r3 == 0);
      SlotSteps(w, client, id, oks, r2 == 0, r3 == 0, pow10, w1, r1, w2, r2, View(), r3);
    }

    /** An empty table, seen on the object. */
    lemma EmptyHere(client: Client)
      requires Valid() && client in View().clients && View().clients[client].registered
        && View().clients[client].player != null
      requires Occupied(View().clients[client].slots, null) == 0
      ensures Registered(client) && client.player != null && client.len == 0
      ensures client.player in preg.players && HoldersOf(client.player)[client] >= 1
        && client.player.id < |preg.players|
      ensures Droppable(Dropping(client, client.player.id, true))
    {
      assert View().clients[client] == ClientView(client);
      ClientFacts(client);
      HoldingFacts(client, client.player);
      assert Key(0);
    }

    /** client_logout: every slot is cleared, then the player given up. */
    method LogoutEntry(client: Client) returns (r: int, ghost outs: seq<Outcome>)
      requires Valid() && Registered(client)
      modifies Repr
      ensures Valid() && Repr == old(Repr)
      ensures old(client.player) == null ==> r == -1 && View() == old(View())
      ensures old(client.player) != null ==> r == 0 && LogsOut(old(View()), client, outs, pow10, View())
      ensures old(client.player) != null ==>
                client.player == null
                && var p := old(client.player);
                   books.holders == old(books.holders)[p := old(HoldersOf(p)) - multiset{client}]
    {
      ClientFacts(client);
      outs := [];
      if client.player == null {
        return -1, [];
      }
      ghost var w := View();
      ClearsHere(client);
      for i := 0 to CAP
        invariant Valid() && Repr == old(Repr) && Registered(client)
        invariant |outs| == i && ClearsAll(w, client, outs, pow10, View())
        invariant books.holders == old(books.holders)
      {
        ghost var v := View();
        ghost var o := ClearEntry(client, i);
        ClearsMore(w, client, outs, pow10, v, o, View());
        outs := outs + [o];
      }
      ClearsEnd(w, client, outs, pow10, View());
      EmptyHere(client);
      var player := client.player;
      assert player == old(client.player);
      HoldingFacts(client, player);
      label L:
      DropBooked(client, player, true);
      DroppedDone@L(Dropping(client, player.id, true));
      return 0, outs;
    }

    lemma ClearsHere(client: Client)
      requires Valid() && Registered(client)
      ensures ClearsAll(View(), client, [], pow10, View())
    {
      assert View().clients[client] == ClientView(client);
      assert IsPower(pow10) by {
        assert Key(0);
      }
      ClearsStart(View(), client, pow10);
    }

    // ---------------------------------------------------------------- listing the users

    /** Two different players have different names. */
    lemma PlayersNamedApart(p: Player, q: Player)
      requires Valid() && p in preg.players && q in preg.players && p != q
      ensures p.name != q.name
    {
      assert Key(0);
      PlayerRegistryFacts();
      ghost var j :| 0 <= j < |preg.players| && preg.players[j] == p;
      ghost var k :| 0 <= k < |preg.players| && preg.players[k] == q;
      assert View().players[j].name != View().players[k].name;
    }

    ghost predicate Lines(lines: seq<Line>, all: seq<Player>)
      reads all
    {
      |lines| == |all| && forall k :: 0 <= k < |all| ==> lines[k] == Line(all[k].name, Rounded(all[k].rating))
    }

    /** The rating of a registered player, in the specification's terms. */
    lemma RatingHere(p: Player)
      requires Valid() && p in preg.players
      ensures RatingOf(View(), p) == Rounded(p.rating)
    {
      assert Key(0);
      ghost var k :| 0 <= k < |preg.players| && preg.players[k] == p;
      assert preg.Ratings()[k] == p.rating;
    }

    lemma ListingFacts()
      requires Valid()
      ensures creg.Valid() && DistinctLogins(creg.arr[..])
      ensures forall q :: q in LoggedInPlayers(creg.arr[..]) ==>
        q in preg.players && q in Repr && q.alive && q.refCount >= 1
    {
      RegistryFacts();
      PlayerRegistryFacts();
      ghost var table := creg.arr[..];
      assert DistinctLogins(table) by {
        assert Key(0);
        forall i, j | 0 <= i < j < |table| && table[i] != null && table[j] != null && table[i].player != null
          ensures table[i].player != table[j].player
        {
          assert View().clients[table[i]] == ClientView(table[i]) && View().clients[table[j]] == ClientView(table[j]);
        }
      }
      forall q | q in LoggedInPlayers(table)
        ensures q in preg.players
      {
        LoggedInMembers(table, q);
        ghost var k :| 0 <= k < |table| && table[k] != null && table[k].player == q;
        ClientFacts(table[k]);
      }
    }

    /** Whoever is listed is logged in, and whoever is logged in is listed. */
    lemma ListedMembers(lines: seq<Line>, l: Line)
      requires Valid() && Lines(lines, LoggedInPlayers(creg.arr[..]))
      ensures l in lines <==> exists c :: c in View().clients && Describes(View(), l, c)
    {
      RegistryFacts();
      ListingFacts();
      ghost var table := creg.arr[..];
      ghost var all := LoggedInPlayers(table);
      if l in lines {
        ghost var k :| 0 <= k < |lines| && lines[k] == l;
        LoggedInMembers(table, all[k]);
        ghost var n :| 0 <= n < |table| && table[n] != null && table[n].player == all[k];
        assert View().clients[table[n]] == ClientView(table[n]);
        RatingHere(all[k]);
        assert Describes(View(), l, table[n]);
      }
      if c :| c in View().clients && Describes(View(), l, c) {
        DescribedIsListed(lines, l, c);
      }
    }

    lemma DescribedIsListed(lines: seq<Line>, l: Line, c: Client)
      requires Valid() && Lines(lines, LoggedInPlayers(creg.arr[..]))
      requires c in View().clients && Describes(View(), l, c)
      ensures l in lines
    {
      ghost var table := creg.arr[..];
      ghost var all := LoggedInPlayers(table);
      assert View().clients[c] == ClientView(c);
      ClientFacts(c);
      RatingHere(c.player);
      assert c.player.name == l.name && Registered(c) && 0 <= c.regSlot < |table| && table[c.regSlot] == c by {
        assert Key(0);
      }
      LoggedInMembers(table, c.player);
      ghost var k :| 0 <= k < |all| && all[k] == c.player;
      assert lines[k] == l;
    }

    lemma RosterFacts(lines: seq<Line>)
      requires Valid() && Lines(lines, LoggedInPlayers(creg.arr[..]))
      ensures Roster(View(), lines)
    {
      ListingFacts();
      LoggedInDistinct(creg.arr[..]);
      ghost var all := LoggedInPlayers(creg.arr[..]);
      forall j, k | 0 <= j < k < |lines|
        ensures lines[j].name != lines[k].name
      {
        PlayersNamedApart(all[j], all[k]);
      }
      forall l: Line
        ensures l in lines <==> exists c :: c in View().clients && Describes(View(), l, c)
      {
        ListedMembers(lines, l);
      }
    }

    /**
     What user_handler lists (src/server.c:13-29): the name and rating of everybody logged in, once; every
     reference is given back.
     */
    method UsersEntry() returns (text: string, ghost lines: seq<Line>)
      requires Valid()
      modifies Repr
      ensures Valid() && Repr == old(Repr) && View() == old(View()) && books == old(books)
      ensures Roster(View(), lines) && text == ListingText(lines)
    {
      ListingFacts();
      RegistryInUse();
      ghost var all := LoggedInPlayers(creg.arr[..]);
      LoggedInDistinct(creg.arr[..]);
      text, lines := UsersListed(all);
      assert unchanged(Repr);
      RosterFacts(lines);
    }

    method UsersListed(ghost all: seq<Player>) returns (text: string, ghost lines: seq<Line>)
      requires creg.Valid() && creg.InUse() && all == LoggedInPlayers(creg.arr[..]) && DistinctLogins(creg.arr[..])
      requires forall q :: q in all ==> q.alive && q.refCount >= 1
      requires forall i, j :: 0 <= i < j < |all| ==> all[i] != all[j]
      modifies all`refCount
      ensures forall q :: q in all ==> q.refCount == old(q.refCount)
      ensures Lines(lines, all) && text == ListingText(lines)
    {
      lines := seq(|all|, k requires 0 <= k < |all| reads all => Line(all[k].name, Rounded(all[k].rating)));
      var all_players := creg.AllPlayers(all);
      text := UsersPrinted(all_players, all, lines);
    }

    /** The loop of user_handler. */
    method UsersPrinted(all_players: array<Player?>, ghost all: seq<Player>, ghost lines: seq<Line>)
      returns (text: string)
      requires all_players[..] == all + [null] && Lines(lines, all)
      requires forall q :: q in all ==> q.alive && q.refCount >= 2
      requires forall i, j :: 0 <= i < j < |all| ==> all[i] != all[j]
      modifies all`refCount
      ensures forall q :: q in all ==> q.refCount == old(q.refCount) - 1
      ensures text == ListingText(lines)
    {
      var player_idx := 0;
      text := "";
      while all_players[player_idx] != null
        invariant 0 <= player_idx <= |all| && all_players[..] == all + [null]
        invariant text == ListingText(lines[..player_idx])
        invariant forall k :: 0 <= k < |all| ==>
          all[k].refCount == old(all[k].refCount) - if k < player_idx then 1 else 0
        decreases |all| - player_idx
      {
        var player := all_players[player_idx];
        assert player == all[player_idx];
        text := text + player.GetName() + "\t" + Decimal(player.GetRating()) + "\n";
        ListingNext(lines, player_idx);
        player.Unref();
        player_idx := player_idx + 1;
      }
      assert lines[..player_idx] == lines;
    }

    // ---------------------------------------------------------------- replying

    /** A reply to a request is in the books; nothing else changed. */
    twostate predicate Replied(reply: Packet)
      reads this, Repr
    {
      && Repr == old(Repr) && books == old(books).(log := old(books).log + [Sent(reply, None)])
      && (forall o: object {:trigger o in old(Repr)} :: o in old(Repr) && o in Repr && o != this ==> unchanged(o))
    }

    twostate lemma RepliedWorld(reply: Packet)
      requires old(Wired()) && Replied(reply)
      ensures Wired() && View() == old(View()).(log := old(View()).log + [Sent(reply, None)])
    {
      forall c | c in books.clients
        ensures ClientView(c) == old(ClientView(c))
      {
      }
      forall i | i in books.invs
        ensures InvView(i) == old(InvView(i))
      {
      }
      RepliedRatings(reply);
    }

    twostate lemma RepliedRatings(reply: Packet)
      requires old(Wired()) && Replied(reply)
      ensures preg.Ratings() == old(preg.Ratings())
    {
      forall j | 0 <= j < |preg.players|
        ensures preg.Ratings()[j] == old(preg.Ratings())[j]
      {
        assert preg.players[j] in preg.players;
      }
    }

    twostate lemma RepliedInvariant(reply: Packet)
      requires old(Wired()) && old(Invariant()) && Replied(reply) && Wired()
      ensures Invariant()
    {
      forall c | c in books.clients
        ensures ClientCounted(c)
      {
        assert old(ClientCounted(c));
      }
      forall i | i in books.invs
        ensures InvCounted(i)
      {
        assert old(InvCounted(i));
      }
      forall p | p in preg.players
        ensures PlayerCounted(p)
      {
        assert old(PlayerCounted(p));
      }
      KeptAll();
      assert creg.arr[..] == old(creg.arr[..]);
    }

    twostate lemma RepliedDone(reply: Packet)
      requires old(Valid()) && Replied(reply) && (reply.kind == AckPkt || reply.kind == NackPkt)
      ensures Valid()
      ensures View() == old(View()).(log := old(View()).log + [Sent(reply, None)])
    {
      assert Key(0);
      RepliedWorld(reply);
      RepliedInvariant(reply);
      LogInv(old(View()), [Sent(reply, None)]);
    }

    /** client_send_ack, client_send_nack, and the acknowledgements built in place. */
    method ReplyEntry(client: Client, kind: Kind, id: int, data: string, ghost payload: Payload) returns (status: int)
      requires Valid() && client in books.clients && (kind == AckPkt || kind == NackPkt) && Spells(payload, data)
      modifies this`books
      ensures Valid() && Repr == old(Repr)
      ensures books.holders == old(books.holders) && client.player == old(client.player)
      ensures status == 0 || status == -1
      ensures View() == old(View()).(log := old(View()).log +
                                            [Sent(Packet(client.fd, kind, id % 256, NullRole, Carried(payload),
                                                status == 0),
                                                None)])
    {
      ClientFacts(client);
      ghost var reply;
      status, reply := Send(client, kind, id, NullRole, data, payload);
      books := books.(log := books.log + [Sent(reply, None)]);
      RepliedDone(reply);
    }
  }
}
