/**
 Clients and invitations: the objects of src/client.c and src/invitation.c, with the operations
 that touch one of them at a time.  The operations across objects are in module Server.

 `alive` is true until the object is freed.  Every method demands it, so a verified caller never
 uses an object after its last reference is gone.
 */
module Lobby {
  import opened Roles
  import opened Sealing
  import opened Slots
  import opened Games
  import opened TicTacToe
  import opened Players

  const CAP := MAX_CLIENTS * 128

  datatype InvState = Open | Accepted | Closed

  class Invitation {
    const src: Client
    const target: Client
    const srcRole: Role
    const targetRole: Role
    var game: Game?
    var state: InvState
    var refCount: nat
    ghost var alive: bool
    /** Where the two tables hold this invitation, while they do. */
    ghost var srcSlot: nat
    ghost var targetSlot: nat

    ghost function GameSet(): set<Game>
      reads this
    {
      if game == null then {} else {game}
    }

    constructor (source: Client, target: Client, sourceRole: Role, targetRole: Role)
      requires source.alive && target.alive && source != target
      modifies source`refCount, target`refCount
      ensures src == source && this.target == target && srcRole == sourceRole && this.targetRole == targetRole
      ensures game == null && state == Open && refCount == 1 && alive
      ensures source.refCount == old(source.refCount) + 1 && target.refCount == old(target.refCount) + 1
    {
      this.src := source;
      this.target := target;
      this.srcRole := sourceRole;
      this.targetRole := targetRole;
      game := null;
      state := Open;
      refCount := 0;
      alive := true;
      new;
      Ref();
      src.Ref();
      this.target.Ref();
    }

    /** inv_create: no invitation to oneself, and none without two roles. */
    static method Create(source: Client, target: Client, sourceRole: Role, targetRole: Role) returns (inv: Invitation?)
      requires source.alive && target.alive
      modifies source`refCount, target`refCount
      ensures inv == null <==> source == target || sourceRole == NullRole || targetRole == NullRole
      ensures inv == null ==> source.refCount == old(source.refCount) && target.refCount == old(target.refCount)
      ensures inv != null ==>
                && fresh(inv) && inv.alive && inv.refCount == 1 && inv.state == Open && inv.game == null
                && inv.src == source && inv.target == target
                && inv.srcRole == sourceRole && inv.targetRole == targetRole
                && source.refCount == old(source.refCount) + 1 && target.refCount == old(target.refCount) + 1
    {
      if sourceRole == NullRole || targetRole == NullRole {
        return null;
      }
      if source == target {
        return null;
      }
      inv := new Invitation(source, target, sourceRole, targetRole);
    }

    method Ref()
      requires alive
      modifies this`refCount
      ensures refCount == old(refCount) + 1
    {
      refCount := refCount + 1;
    }

    /** What giving up the last reference affects beyond the count. */
    ghost function LastSelf(): set<Invitation>
      reads this
    {
      if refCount == 1 then {this} else {}
    }

    ghost function LastGame(): set<Game>
      reads this
    {
      if refCount == 1 then GameSet() else {}
    }

    ghost function LastParties(): set<Client>
      reads this
    {
      if refCount == 1 then {src, target} else {}
    }

    /**
     inv_unref.  The last reference gives up the two client references and the game's, and frees the
     invitation.
     */
    method Unref()
      requires alive && refCount >= 1 && src != target
      requires refCount == 1 ==> src.Releasable() && target.Releasable()
      requires refCount == 1 && game != null ==> game.alive && game.refCount >= 1
      modifies this`refCount, LastSelf()`alive, LastSelf()`game, LastGame()`refCount, LastGame()`alive
      modifies LastParties()`refCount, LastParties()`alive, LastParties()`player
      ensures refCount == old(refCount) - 1
      ensures old(refCount) == 1 ==>
                && !alive && game == null
                && (old(game) != null ==>
                      old(game).refCount == old(game.refCount) - 1 && (old(game).alive <==> old(game).refCount > 0))
                && src.Released(old(src.refCount), old(src.player))
                && target.Released(old(target.refCount), old(target.player))
    {
      refCount := refCount - 1;
      if refCount == 0 {
        src.Unref();
        target.Unref();
        if game != null {
          game.Unref();
          game := null;
        }
        alive := false;
      }
    }

    /** inv_get_source, inv_get_target, inv_get_source_role, inv_get_target_role, inv_get_game. */
    function GetSource(): Client
      requires alive
      reads `alive
    {
      src
    }

    function GetTarget(): Client
      requires alive
      reads `alive
    {
      target
    }

    function GetSourceRole(): Role
      requires alive
      reads `alive
    {
      srcRole
    }

    function GetTargetRole(): Role
      requires alive
      reads `alive
    {
      targetRole
    }

    function GetGame(): Game?
      requires alive
      reads `alive, `game
    {
      game
    }

    /** inv_accept: only an open invitation, which then owns a new game. */
    method Accept() returns (r: int)
      requires alive
      modifies this`game, this`state
      ensures r == if old(state) == Open then 0 else -1
      ensures old(state) != Open ==> state == old(state) && game == old(game)
      ensures old(state) == Open ==>
                && state == Accepted && game != null && fresh(game) && fresh(game.board)
                && game.alive && game.refCount == 1 && game.Valid() && game.abs == Initial()
    {
      if state != Open {
        return -1;
      }
      game := new Game();
      state := Accepted;
      return 0;
    }

    /** Can this invitation be closed by `role` (or, with no role, withdrawn)? */
    ghost predicate Closable(role: Role)
      reads this, GameSet()
    {
      && state != Closed
      && if role == NullRole then game == null else game != null && !game.abs.over
    }

    ghost function ClosedSelf(role: Role): set<Invitation>
      reads this, GameSet()
    {
      if Closable(role) then {this} else {}
    }

    ghost function ResignedGame(role: Role): set<Game>
      reads this, GameSet()
    {
      if Closable(role) && role != NullRole then GameSet() else {}
    }

    /** inv_close: withdraws an invitation without a game, or resigns the running game for a role. */
    method Close(role: Role) returns (r: int)
      requires alive
      requires role != NullRole && game != null ==> game.alive && game.Valid()
      modifies ClosedSelf(role)`state, ResignedGame(role)`terminated, ResignedGame(role)`winner, ResignedGame(role)`abs
      ensures r == if old(Closable(role)) then 0 else -1
      ensures old(Closable(role)) ==> state == Closed
      ensures old(Closable(role)) && role != NullRole ==> game.Valid() && game.abs == Concede(old(game.abs), role)
    {
      if state != Open && state != Accepted {
        return -1;
      }
      if role == NullRole {
        if game == null {
          state := Closed;
          return 0;
        } else {
          return -1;
        }
      }
      if game == null {
        return -1;
      }
      var status := game.Resign(role);
      if status != -1 {
        state := Closed;
      }
      return status;
    }
  }

  class Client {
    const fd: int
    var player: Player?
    const lst: array<Invitation?>
    var len: nat
    var refCount: nat
    ghost var alive: bool
    /** The largest number of simultaneous invitations so far. */
    ghost var peak: nat
    /** The registry entry holding this client, or -1. */
    ghost var regSlot: int

    /** `len` counts the occupied slots. */
    ghost predicate TableOk()
      reads `len, lst
    {
      && lst.Length == CAP
      && forall k {:trigger Key(k)} :: Key(k) ==> len == Occupied(lst[..], null)
    }

    ghost predicate Empty()
      reads lst
    {
      forall k :: 0 <= k < lst.Length ==> lst[k] == null
    }

    /** One reference may be given up: if it is the last, the table must be empty. */
    ghost predicate Releasable()
      reads this, lst
    {
      alive && refCount >= 1 && (refCount == 1 ==> TableOk() && len == 0)
    }

    /** The state one Unref leaves, from these values before it. */
    ghost predicate Released(refCountBefore: nat, playerBefore: Player?)
      reads this
    {
      && refCount == refCountBefore - 1
      && (alive <==> refCount > 0)
      && player == if refCount == 0 then null else playerBefore
    }

    /** Only this slot of the table changed, and it now holds v. */
    twostate predicate Changed(slot: nat, new v: Invitation?)
      reads lst
    {
      slot < lst.Length && forall k :: 0 <= k < lst.Length ==> lst[k] == if k == slot then v else old(lst[k])
    }

    /** The table after the invitation in this slot left, and one reference with it. */
    twostate predicate Left(slot: nat)
      reads this, lst
    {
      && Changed(slot, null)
      && len == old(len) - 1
      && peak == old(peak) && regSlot == old(regSlot)
      && Released(old(refCount), old(player))
    }

    /** client_create. */
    constructor (fd: int)
      ensures fresh(lst) && TableOk() && Empty()
      ensures this.fd == fd && player == null && len == 0 && refCount == 1 && alive && peak == 0 && regSlot == -1
    {
      this.fd := fd;
      player := null;
      lst := new Invitation?[CAP](_ => null);
      len := 0;
      refCount := 0;
      alive := true;
      peak := 0;
      regSlot := -1;
      new;
      OccupiedNone(lst[..], null);
      Ref();
    }

    /** client_get_player. */
    function GetPlayer(): Player?
      requires alive
      reads `alive, `player
    {
      player
    }

    method Ref()
      requires alive
      modifies this`refCount
      ensures refCount == old(refCount) + 1
    {
      refCount := refCount + 1;
    }

    /** What giving up the last reference affects beyond the count. */
    ghost function LastSelf(): set<Client>
      reads this
    {
      if refCount == 1 then {this} else {}
    }

    /**
     client_unref.  The last reference frees the client.  Its table is then empty, so the loop of
     destroy_inv_lst_safe has nothing to give up; a player still set is dropped without an unref.
     */
    method Unref()
      requires Releasable()
      modifies this`refCount, LastSelf()`alive, LastSelf()`player
      ensures Released(old(refCount), old(player))
    {
      refCount := refCount - 1;
      if refCount == 0 {
        assert Key(0);
        OccupiedBounds(lst[..], null);
        for idx := 0 to lst.Length
        {
          if lst[idx] != null {
            assert false;
          }
        }
        player := null;
        alive := false;
      }
    }

    /** search_inv_lst: the first slot holding the invitation, or -1. */
    method Search(inv: Invitation) returns (r: int)
      requires alive && TableOk()
      ensures r == -1 <==> forall k :: 0 <= k < lst.Length ==> lst[k] != inv
      ensures r != -1 ==> 0 <= r < CAP && lst[r] == inv && forall k :: 0 <= k < r ==> lst[k] != inv
    {
      if len == 0 {
        assert Key(0);
        OccupiedBounds(lst[..], null);
        return -1;
      }
      r := -1;
      for idx := 0 to lst.Length
        invariant r == -1
        invariant forall k :: 0 <= k < idx ==> lst[k] != inv
      {
        if lst[idx] == inv {
          r := idx;
          break;
        }
      }
    }

    /** client_add_invitation: the least free slot gets the invitation, unless the table is full. */
    method AddInvitation(inv: Invitation) returns (r: int)
      requires alive && TableOk() && inv.alive
      modifies this`len, lst, inv`refCount
      ensures TableOk()
      ensures r == -1 <==> old(len) == CAP
      ensures r == -1 ==> unchanged(lst) && len == old(len) && inv.refCount == old(inv.refCount)
      ensures r != -1 ==>
                && 0 <= r < CAP && old(lst[r]) == null && (forall k :: 0 <= k < r ==> old(lst[k]) != null)
                && r <= old(len)
                && Changed(r, inv)
                && len == old(len) + 1 && inv.refCount == old(inv.refCount) + 1
    {
      assert Key(0);
      if len == lst.Length {
        return -1;
      }
      r := -1;
      for idx := 0 to lst.Length
        invariant r == -1
        invariant lst[..] == old(lst[..]) && inv.refCount == old(inv.refCount)
        invariant null !in lst[..idx]
      {
        if lst[idx] == null {
          OccupiedUpdate(lst[..], null, idx, inv);
          OccupiedPrefix(lst[..], null, idx);
          inv.Ref();
          lst[idx] := inv;
          assert lst[..] == old(lst[..])[idx := inv];
          r := idx;
          break;
        }
      }
      if r == -1 {
        OccupiedBounds(lst[..], null);
        assert false;
      }
      len := len + 1;
    }

    /** client_remove_invitation: empties the first slot holding the invitation and gives up its reference. */
    method RemoveInvitation(inv: Invitation) returns (r: int)
      requires alive && TableOk()
      requires inv.alive && inv.refCount >= 1 && inv.src != inv.target
      requires inv.refCount == 1 ==> inv.src.Releasable() && inv.target.Releasable()
      requires inv.refCount == 1 && inv.game != null ==> inv.game.alive && inv.game.refCount >= 1
      modifies this`len, lst
      modifies inv`refCount, inv.LastSelf()`alive, inv.LastSelf()`game, inv.LastGame()`refCount, inv.LastGame()`alive
      modifies inv.LastParties()`refCount, inv.LastParties()`alive, inv.LastParties()`player
      ensures TableOk()
      ensures r == -1 <==> forall k :: 0 <= k < lst.Length ==> old(lst[k]) != inv
      ensures r == -1 ==> unchanged(lst) && len == old(len)
      ensures r != -1 ==>
                && 0 <= r < CAP && old(lst[r]) == inv && (forall k :: 0 <= k < r ==> old(lst[k]) != inv)
                && Changed(r, null) && len == old(len) - 1
      ensures inv.refCount == if r == -1 then old(inv.refCount) else old(inv.refCount) - 1
      ensures r != -1 && old(inv.refCount) == 1 ==>
                && !inv.alive && inv.game == null
                && (old(inv.game) != null ==>
                      old(inv.game).refCount == old(inv.game.refCount) - 1
                          && (old(inv.game).alive <==> old(inv.game).refCount > 0))
                && inv.src.Released(old(inv.src.refCount), old(inv.src.player))
                && inv.target.Released(old(inv.target.refCount), old(inv.target.player))
      ensures r == -1 && old(inv.refCount) == 1 ==>
                && inv.alive && inv.game == old(inv.game)
                && (inv.game != null ==>
                     inv.game.refCount == old(inv.game.refCount) && inv.game.alive == old(inv.game.alive))
                && inv.src.refCount == old(inv.src.refCount) && inv.src.alive == old(inv.src.alive)
                     && inv.src.player == old(inv.src.player)
                && inv.target.refCount == old(inv.target.refCount) && inv.target.alive == old(inv.target.alive)
                     && inv.target.player == old(inv.target.player)
    {
      r := Search(inv);
      if r != -1 {
        assert len > 0 by {
          assert Key(0);
          OccupiedBounds(lst[..], null);
        }
        ghost var before := lst[..];
        inv.Unref();
        lst[r] := null;
        len := len - 1;
        assert lst[..] == before[r := null];
        assert TableOk() by {
          assert Key(0);
          OccupiedUpdate(before, null, r, null);
        }
      }
    }
  }
}
