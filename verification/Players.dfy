/** The players of src/player.c and their registry, src/player_registry.c. */
module Players {
  import opened Elo
  import opened Sealing

  const MAX_CLIENTS := 64

  class Player {
    const name: string
    const id: nat
    var rating: real
    var refCount: nat
    ghost var alive: bool

    constructor (name: string, id: nat)
      ensures this.name == name && this.id == id
      ensures rating == INITIAL_RATING && refCount == 1 && alive
    {
      this.name := name;
      this.id := id;
      rating := INITIAL_RATING;
      refCount := 0;
      alive := true;
      new;
      Ref();
    }

    /** player_get_name. */
    function GetName(): string
      requires alive
      reads `alive
    {
      name
    }

    /** player_get_rating. */
    function GetRating(): int
      requires alive
      reads `alive, `rating
    {
      Rounded(rating)
    }

    method Ref()
      requires alive
      modifies this`refCount
      ensures refCount == old(refCount) + 1
    {
      refCount := refCount + 1;
    }

    ghost function LastSelf(): set<Player>
      reads this
    {
      if refCount == 1 then {this} else {}
    }

    /** Gives up one reference; the last one frees the player. */
    method Unref()
      requires alive && refCount >= 1
      modifies this`refCount, LastSelf()`alive
      ensures refCount == old(refCount) - 1
      ensures alive <==> refCount > 0
    {
      refCount := refCount - 1;
      if refCount == 0 {
        alive := false;
      }
    }
  }

  /**
   player_post_result.  A missing player makes it do nothing.  The two players must differ: with
   one player twice, the second lock of its mutex would never be granted.
   */
  method PostResult(player1: Player?, player2: Player?, result: int, pow10: real -> real)
    requires IsPower(pow10)
    requires player1 != null && player2 != null ==> player1 != player2
    requires (player1 != null ==> player1.alive) && (player2 != null ==> player2.alive)
    modifies (if player1 == null then {} else {player1})`rating, (if player2 == null then {} else {player2})`rating
    ensures player1 != null && player2 != null ==>
              Rated(pow10, old(player1.rating), old(player2.rating), result, player1.rating, player2.rating)
    ensures player1 == null && player2 != null ==> player2.rating == old(player2.rating)
    ensures player2 == null && player1 != null ==> player1.rating == old(player1.rating)
  {
    if player1 == null || player2 == null {
      return;
    }
    var s1 := if result == 0 then 0.5 else if result == 1 then 1.0 else 0.0;
    var s2 := if result == 0 then 0.5 else if result == 2 then 1.0 else 0.0;
    var r1 := player1.rating;
    var r2 := player2.rating;
    assert Key(0) && PowerAt(pow10, Gap(r1, r2)) && PowerAt(pow10, Gap(r2, r1));
    var e1 := 1.0 / (1.0 + pow10((r2 - r1) / 400.0));
    var e2 := 1.0 / (1.0 + pow10((r1 - r2) / 400.0));
    player1.rating := r1 + 32.0 * (s1 - e1);
    player2.rating := r2 + 32.0 * (s2 - e2);
  }

  /**
   The growing array of players.  `players` lists the registered players in order of arrival;
   `Valid` says the array is that list followed by NULLs.  `nextId` is the counter player_id of
   src/player.c:9, which only registration advances.
   */
  class PlayerRegistry {
    var arr: array<Player?>
    var len: nat
    var nextId: nat
    ghost var players: seq<Player>

    ghost predicate Valid()
      reads this, arr
    {
      && |players| == len <= arr.Length
      && arr.Length >= 1
      && nextId == len
      && (forall i :: 0 <= i < len ==> arr[i] == players[i])
      && (forall i :: len <= i < arr.Length ==> arr[i] == null)
      && (forall i :: 0 <= i < len ==> players[i].id == i)
      && (forall i, j :: 0 <= i < j < len ==> players[i].name != players[j].name)
    }

    /** The map from names to players that the array stands for. */
    ghost function ByName(): map<string, Player>
      reads this, arr
      requires Valid()
      ensures forall i :: 0 <= i < len ==> players[i].name in ByName() && ByName()[players[i].name] == players[i]
      ensures forall n :: n in ByName() ==> ByName()[n] in players && ByName()[n].name == n
    {
      assert forall p, q :: p in players && q in players && p.name == q.name ==> p == q;
      map p | p in players :: p.name := p
    }

    ghost function Ratings(): seq<real>
      reads this, players
    {
      RatingsOf(players)
    }

    constructor ()
      ensures Valid() && fresh(arr)
      ensures players == []
    {
      arr := new Player?[MAX_CLIENTS](_ => null);
      len := 0;
      nextId := 0;
      players := [];
    }

    /** Doubling the array when it is full: the entries stay, the new half is NULL. */
    method Grow()
      requires Valid()
      modifies this`arr
      ensures Valid() && fresh(arr)
      ensures arr.Length == 2 * old(arr.Length)
    {
      var small := arr;
      var cap := small.Length;
      var bigger := new Player?[2 * cap];
      for i := 0 to cap
        invariant forall k :: 0 <= k < i ==> bigger[k] == small[k]
      {
        bigger[i] := small[i];
      }
      for i := cap to bigger.Length
        invariant forall k :: 0 <= k < cap ==> bigger[k] == small[k]
        invariant forall k :: cap <= k < i ==> bigger[k] == null
      {
        bigger[i] := null;
      }
      arr := bigger;
    }

    /** The search loop: the registered player of that name, if there is one. */
    method Find(name: string) returns (found: Player?)
      requires Valid() && forall q :: q in players ==> q.alive
      ensures found == null <==> name !in ByName()
      ensures found != null ==> ByName()[name] == found
    {
      found := null;
      for i := 0 to arr.Length
        invariant forall k :: 0 <= k < i && k < len ==> players[k].name != name
      {
        if arr[i] != null {
          assert arr[i] in players;
          var othername := arr[i].GetName();
          if othername == name {
            found := arr[i];
            assert found == players[i];
            break;
          }
        }
      }
    }

    /** The registered player of a name, if there is one. */
    ghost function Known(name: string): set<Player>
      reads this, arr
      requires Valid()
    {
      if name in ByName() then {ByName()[name]} else {}
    }

    /**
     preg_register: the registered player of that name, or a new one.  The abstract map gains at most
     this one entry and never changes another; the returned pointer is counted once beyond the
     registry's own.
     */
    method Register(name: string) returns (p: Player)
      requires Valid() && forall q :: q in players ==> q.alive
      modifies this, arr, Known(name)`refCount
      ensures Valid() && (arr == old(arr) || fresh(arr))
      ensures p.name == name && p.alive && p.id < len && players[p.id] == p
      ensures ByName() == old(ByName())[name := p]
      ensures name in old(ByName()) ==>
        p == old(ByName())[name] && p.refCount == old(p.refCount) + 1 && players == old(players)
      ensures name !in old(ByName()) ==>
        fresh(p) && p.refCount == 2 && p.rating == INITIAL_RATING && players == old(players) + [p]
    {
      if len >= arr.Length {
        Grow();
      }
      var found := Find(name);
      if found != null {
        found.Ref();
        assert players[found.id] == found;
        return found;
      }
      p := InsertNew(name);
      return p;
    }

    /** The insertion loop: the first NULL entry gets the new player. */
    method InsertNew(name: string) returns (p: Player)
      requires Valid() && len < arr.Length
      requires name !in ByName()
      modifies this`len, this`nextId, this`players, arr
      ensures Valid()
      ensures fresh(p) && p.alive && p.name == name && p.refCount == 2 && p.rating == INITIAL_RATING
      ensures players == old(players) + [p]
      ensures ByName() == old(ByName())[name := p]
    {
      var slot := 0;
      while slot < arr.Length
        invariant 0 <= slot <= len
      {
        if arr[slot] == null {
          break;
        }
        slot := slot + 1;
      }
      p := new Player(name, nextId);
      nextId := nextId + 1;
      arr[slot] := p;
      p.Ref();
      ghost var before := players;
      players := players + [p];
      len := len + 1;
    }
  }

  ghost function RatingsOf(players: seq<Player>): (rs: seq<real>)
    reads players
    ensures |rs| == |players| && forall i :: 0 <= i < |rs| ==> rs[i] == players[i].rating
  {
    seq(|players|, i requires 0 <= i < |players| reads players => players[i].rating)
  }
}
