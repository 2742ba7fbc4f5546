/**
 The client registry of src/client_registry.c as a table of clients.  Its semaphore is the subject of
 module RegistrySemaphore; here registering and unregistering are single steps.
 */
module Registry {
  import opened Slots
  import opened Players
  import opened Lobby

  ghost predicate LoggedInAs(c: Client?, user: string)
    reads c
  {
    c != null && c.player != null && c.player.name == user
  }

  /** The players of the logged-in clients of a table, in table order. */
  ghost function LoggedInPlayers(table: seq<Client?>): (ps: seq<Player>)
    reads table
    ensures |ps| <= |table|
  {
    if table == [] then []
    else
      var c := table[|table| - 1];
      LoggedInPlayers(table[..|table| - 1]) + if c != null && c.player != null then [c.player] else []
  }

  /** No two table entries are logged in as one player. */
  ghost predicate DistinctLogins(table: seq<Client?>)
    reads table
  {
    forall i, j :: 0 <= i < j < |table| && table[i] != null && table[j] != null && table[i].player != null
                   ==> table[i].player != table[j].player
  }

  /** The list names exactly the players somebody is logged in as. */
  lemma {:induction false} LoggedInMembers(table: seq<Client?>, p: Player)
    ensures p in LoggedInPlayers(table) <==> exists k :: 0 <= k < |table| && table[k] != null && table[k].player == p
  {
    if table != [] {
      var n := |table| - 1;
      LoggedInMembers(table[..n], p);
      assert forall k :: 0 <= k < n ==> table[..n][k] == table[k];
    }
  }

  /** With distinct logins the list names each player once. */
  lemma {:induction false} LoggedInDistinct(table: seq<Client?>)
    requires DistinctLogins(table)
    ensures forall i, j :: 0 <= i < j < |LoggedInPlayers(table)| ==>
      LoggedInPlayers(table)[i] != LoggedInPlayers(table)[j]
  {
    if table != [] {
      var n := |table| - 1;
      LoggedInDistinct(table[..n]);
      if table[n] != null && table[n].player != null {
        LoggedInMembers(table[..n], table[n].player);
      }
    }
  }

  /** The lists of all the table's prefixes, each extending the one before by at most one player. */
  lemma {:induction false} PrefixLists(table: seq<Client?>) returns (lists: seq<seq<Player>>)
    ensures |lists| == |table| + 1 && lists[0] == [] && lists[|table|] == LoggedInPlayers(table)
    ensures forall k :: 0 <= k < |table| ==>
                          lists[k + 1] == lists[k] + if table[k] != null
                              && table[k].player != null then [table[k].player] else []
    ensures forall k :: 0 <= k <= |table| ==> lists[k] <= LoggedInPlayers(table)
  {
    if table == [] {
      lists := [[]];
    } else {
      var n := |table| - 1;
      var shorter := PrefixLists(table[..n]);
      lists := shorter + [LoggedInPlayers(table)];
    }
  }

  class ClientRegistry {
    const arr: array<Client?>
    var len: nat

    ghost predicate Valid()
      reads this, arr, arr[..]
    {
      && arr.Length == MAX_CLIENTS
      && len == Occupied(arr[..], null)
      && forall k :: 0 <= k < arr.Length && arr[k] != null ==> arr[k].regSlot == k
    }

    constructor ()
      ensures fresh(arr) && Valid() && len == 0
      ensures forall k :: 0 <= k < arr.Length ==> arr[k] == null
    {
      arr := new Client?[MAX_CLIENTS](_ => null);
      len := 0;
      new;
      OccupiedNone(arr[..], null);
    }

    /** creg_register: a new client in the first free entry, or nothing when the table is full. */
    method Register(fd: int) returns (c: Client?)
      requires Valid()
      modifies this`len, arr
      ensures Valid()
      ensures c == null <==> old(len) == MAX_CLIENTS
      ensures c == null ==> unchanged(this) && unchanged(arr)
      ensures c != null ==>
                && fresh(c) && fresh(c.lst) && c.TableOk() && c.Empty()
                && c.fd == fd && c.player == null && c.len == 0 && c.refCount == 1 && c.alive && c.peak == 0
                && 0 <= c.regSlot < MAX_CLIENTS && old(arr[..])[c.regSlot] == null && null !in old(arr[..])[..c.regSlot]
                && arr[..] == old(arr[..])[c.regSlot := c] && len == old(len) + 1
    {
      var idx := -1;
      for k := 0 to arr.Length
        invariant idx == -1
        invariant arr[..] == old(arr[..])
        invariant null !in arr[..k]
      {
        if arr[k] == null {
          idx := k;
          break;
        }
      }
      OccupiedBounds(arr[..], null);
      if idx == -1 {
        assert arr[..arr.Length] == arr[..];
        return null;
      }
      c := new Client(fd);
      OccupiedUpdate(arr[..], null, idx, c);
      c.regSlot := idx;
      arr[idx] := c;
      assert arr[..] == old(arr[..])[idx := c];
      len := len + 1;
    }

    /** creg_unregister: forgets the client and gives up the registry's reference to it. */
    method Unregister(client: Client) returns (r: int)
      requires Valid()
      requires client in arr[..] ==> client.Releasable()
      modifies this`len, arr, client`refCount, client`alive, client`player, client`regSlot
      ensures Valid()
      ensures r == if client in old(arr[..]) then 0 else -1
      ensures r == -1 ==>
                && arr[..] == old(arr[..]) && len == old(len)
                && client.refCount == old(client.refCount) && client.alive == old(client.alive)
                && client.player == old(client.player) && client.regSlot == old(client.regSlot)
      ensures r == 0 ==>
                && arr[..] == old(arr[..])[old(client.regSlot) := null] && len == old(len) - 1
                && client.Released(old(client.refCount), old(client.player)) && client.regSlot == -1
    {
      var idx := -1;
      for k := 0 to arr.Length
        invariant idx == -1
        invariant client !in arr[..k]
      {
        if arr[k] == client {
          idx := k;
          break;
        }
      }
      if idx == -1 {
        assert arr[..arr.Length] == arr[..];
        return -1;
      }
      OccupiedUpdate(arr[..], null, idx, null);
      client.Unref();
      client.regSlot := -1;
      arr[idx] := null;
      assert arr[..] == old(arr[..])[idx := null];
      len := len - 1;
      return 0;
    }

    /** The first entry, from this one on, whose client is logged in under the name; or the end of the table. */
    ghost function FirstNamed(user: string, from: nat): (k: nat)
      requires from <= arr.Length
      reads arr, arr[..]
      ensures from <= k <= arr.Length && (forall j :: from <= j < k ==> !LoggedInAs(arr[j], user))
      ensures k < arr.Length ==> LoggedInAs(arr[k], user)
      decreases arr.Length - from
    {
      if from == arr.Length || LoggedInAs(arr[from], user) then from else FirstNamed(user, from + 1)
    }

    ghost function Found(user: string): Client?
      reads arr, arr[..]
    {
      var k := FirstNamed(user, 0);
      if k < arr.Length then arr[k] else null
    }

    /** Nothing in the table has been freed: neither the clients nor their players. */
    ghost predicate InUse()
      reads arr, arr[..]
      reads (set c | c in arr[..] && c != null && c.player != null :: c.player)`alive
    {
      forall k :: 0 <= k < arr.Length && arr[k] != null ==>
          arr[k].alive && (arr[k].player != null ==> arr[k].player.alive)
    }

    /** creg_lookup: the first registered client logged in under the name, with one more reference. */
    method Lookup(user: string) returns (ret: Client?)
      requires InUse()
      modifies (if Found(user) == null then {} else {Found(user)})`refCount
      ensures ret == old(Found(user))
      ensures ret != null ==> ret.refCount == old(ret.refCount) + 1
    {
      ret := null;
      for idx := 0 to arr.Length
        invariant ret == null
        invariant FirstNamed(user, 0) == FirstNamed(user, idx)
      {
        if arr[idx] != null {
          var player := arr[idx].GetPlayer();
          if player != null {
            if player.GetName() == user {
              ret := arr[idx];
              ret.Ref();
              break;
            }
          }
        }
      }
    }

    /** The counting pass of creg_all_players. */
    method CountPlayers() returns (n: nat)
      requires Valid() && InUse()
      ensures n == |LoggedInPlayers(arr[..])|
    {
      ghost var lists := PrefixLists(arr[..]);
      n := 0;
      for idx := 0 to arr.Length
        invariant n == |lists[idx]|
      {
        if arr[idx] != null {
          if arr[idx].GetPlayer() != null {
            n := n + 1;
          }
        }
      }
    }

    /** One player goes into the list, with one more reference. */
    method ListPlayer(p: array<Player?>, len: nat, player: Player)
      requires len < p.Length && player.alive
      modifies p, player`refCount
      ensures forall k :: 0 <= k < p.Length ==> p[k] == if k == len then player else old(p[k])
      ensures player.refCount == old(player.refCount) + 1
    {
      player.Ref();
      p[len] := player;
    }

    /**
     creg_all_players: the players of all logged-in clients in table order, then NULL; each listed
     player gets one more reference, and no other player does.  `all` names that list.
     */
    method AllPlayers(ghost all: seq<Player>) returns (p: array<Player?>)
      requires Valid() && InUse()
      requires all == LoggedInPlayers(arr[..])
      requires DistinctLogins(arr[..])
      requires forall q :: q in all ==> q.alive
      modifies all`refCount
      ensures fresh(p)
      ensures p[..] == all + [null]
      ensures forall q :: q in all ==> q.refCount == old(q.refCount) + 1
    {
      var len := CountPlayers();
      p := new Player?[len + 1](_ => null);
      LoggedInDistinct(arr[..]);
      ghost var lists := PrefixLists(arr[..]);
      len := 0;
      for idx := 0 to arr.Length
        invariant len == |lists[idx]| <= |all|
        invariant forall k :: 0 <= k < p.Length ==> p[k] == if k < len then all[k] else null
        invariant forall k :: 0 <= k < |all| ==> all[k].refCount == old(all[k].refCount) + (if k < len then 1 else 0)
      {
        if arr[idx] != null {
          var player := arr[idx].GetPlayer();
          if player != null {
            assert player == arr[idx].player;
            assert lists[idx + 1][len] == all[len] == player;
            ListPlayer(p, len, player);
            len := len + 1;
          }
        }
      }
    }
  }
}
