/**
 What arrives of a payload: the size field of the header has sixteen bits, and as many characters are
 written as it says (src/packet_common.c:5-13, src/protocol.c:42-44).  Only the list of users can be longer.
 */
module Payloads {
  import opened Roles
  import opened Sealing
  import opened Games
  import opened Elo
  import opened Players
  import opened Lobby
  import opened Operations
  import opened Worlds
  import opened Runs
  import opened InviteIds

  /** Every notification of every run carries all of its text. */
  lemma NotificationsArriveWhole(ws: seq<World>, ops: seq<Op>, rs: seq<int>, pow10: real -> real, k: nat, n: nat)
    requires IsRun(ws, ops, rs, pow10) && IsPower(pow10) && k < |ws| && n < |ws[k].log| && ws[k].log[n].about.Some?
    ensures !ws[k].log[n].packet.payload.Piece?
  {
    RunGood(ws, ops, rs, pow10, k);
    assert Key(0);
    assert Addressed(ws[k].log[n]);
  }

  /** An invitee is told the whole name of whoever invites it. */
  lemma InvitedByName(ws: seq<World>, ops: seq<Op>, rs: seq<int>, pow10: real -> real, j: nat)
    requires IsRun(ws, ops, rs, pow10) && IsPower(pow10) && j < |ops| && ops[j].Invite? && ws[j + 1] != ws[j]
    ensures |ws[j + 1].log| == |ws[j].log| + 1
    ensures ops[j].target != null && ops[j].c in ws[j].clients && ws[j].clients[ops[j].c].player != null
    ensures var p := ws[j + 1].log[|ws[j].log|].packet;
            && p.kind == InvitedPkt && p.fd == ops[j].target.fd
            && p.payload == Name(ws[j].clients[ops[j].c].player.name)
  {
    RunGood(ws, ops, rs, pow10, j);
    assert Takes(ws[j], ops[j], pow10, ws[j + 1], rs[j]);
    assert Key(0);
    assert PlayerOk(ws[j], ops[j].c);
  }

  /** A reply carries what goes out of its text: all of it exactly when it is short enough. */
  lemma ReplyCarries(ws: seq<World>, ops: seq<Op>, rs: seq<int>, pow10: real -> real, j: nat, text: string)
    requires IsRun(ws, ops, rs, pow10) && j < |ops| && ops[j].Reply? && Spells(ops[j].payload, text)
    ensures |ws[j + 1].log| == |ws[j].log| + 1
    ensures var p := ws[j + 1].log[|ws[j].log|].packet;
            && p.fd == ops[j].c.fd && p.kind == ops[j].kind && Spells(p.payload, Cut(text))
            && (p.payload == ops[j].payload <==> Sendable(text))
  {
    assert Takes(ws[j], ops[j], pow10, ws[j + 1], rs[j]) by {
      assert Key(0);
    }
    CarriedIsCut(ops[j].payload, text);
  }

  // ---------------------------------------------------------------- two long names

  lemma Thousands(n: int)
    requires 1000 <= n < 10000
    ensures |Decimal(n)| == 4
  {
    assert |Decimal(n / 1000)| == 1;
    assert |Decimal(n / 100)| == 2;
    assert |Decimal(n / 10)| == 3;
  }

  lemma TwoLines(a: Line, b: Line)
    requires 1000 <= a.rating < 10000 && 1000 <= b.rating < 10000
    ensures |ListingText([a, b])| == |a.name| + |b.name| + 12
    ensures a.name <= ListingText([a, b])
  {
    ListingNext([a, b], 1);
    ListingNext([a, b], 0);
    assert [a, b][..2] == [a, b] && [a, b][..1] == [a] && [a, b][..0] == [];
    Thousands(a.rating);
    Thousands(b.rating);
  }

  /** Two users with names of 33,000 characters: less of the list goes out than the first name. */
  lemma TwoLongNames(a: Line, b: Line)
    requires |a.name| == |b.name| == 33000 && 1000 <= a.rating < 10000 && 1000 <= b.rating < 10000
    ensures Carried(Listing([a, b])) == Piece(a.name[..476])
  {
    TwoLines(a, b);
    assert Cut(ListingText([a, b])) == a.name[..476];
  }

  lemma TheirRoster(w: World, c: Client, d: Client, p: Player, q: Player) returns (lines: seq<Line>)
    requires w.clients.Keys == {c, d} && c != d && w.clients[c].registered && w.clients[d].registered
    requires w.clients[c].player == p && w.clients[d].player == q && p.name != q.name
    requires w.ratings == [INITIAL_RATING, INITIAL_RATING] && p.id == 0 && q.id == 1
    ensures lines == [Line(p.name, 1500), Line(q.name, 1500)] && Roster(w, lines)
  {
    lines := [Line(p.name, 1500), Line(q.name, 1500)];
    assert Rounded(INITIAL_RATING) == 1500;
    assert Addressee(w, p.name, c) && Addressee(w, q.name, d);
    forall l
      ensures l in lines <==> exists e :: e in w.clients && Describes(w, l, e)
    {
      assert Describes(w, lines[0], c) && Describes(w, lines[1], d);
      if e :| e in w.clients && Describes(w, l, e) {
        assert Addressee(w, l.name, e) && Key(0);
      }
    }
  }

  /**
   A run in which a user asks for the list and gets less of it than one name: two users are logged in, each
   with a name of 33,000 characters.
   */
  lemma ListCut(c: Client, d: Client, p: Player, q: Player, pow10: real -> real)
    returns (t: Trace, n: nat, lines: seq<Line>)
    requires c != d && p.id == 0 && q.id == 1 && p.name != q.name && |p.name| == |q.name| == 33000 && IsPower(pow10)
    ensures IsRun(t.ws, t.ops, t.rs, pow10) && |t.ops| == n + 1
    ensures t.ops[n] == Reply(c, AckPkt, 0, Listing(lines), true) && Roster(t.ws[n], lines) && |lines| == 2
    ensures t.ws[n + 1].log == [Sent(Packet(c.fd, AckPkt, 0, NullRole, Piece(p.name[..476]), true), None)]
  {
    NewRun(pow10);
    var w;
    t, w := Arrive(NewTrace(), EmptyWorld(), c, p, pow10);
    t, w := Arrive(t, w, d, q, pow10);
    lines := TheirRoster(w, c, d, p, q);
    TwoLongNames(lines[0], lines[1]);
    var op := Reply(c, AckPkt, 0, Listing(lines), true);
    var w' := w.(log := w.log + [Sent(Packet(c.fd, AckPkt, 0, NullRole, Carried(Listing(lines)), true), None)]);
    RunThen(t, pow10, w, op, w', 0);
    n := |t.ops|;
    assert |t.ws| == n + 1 && |t.rs| == n by {
      assert Key(0);
    }
    t := t.Then(op, w', 0);
    assert Key(0);
  }
}
