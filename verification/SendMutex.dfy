/**
 Many threads sending to one client (src/client.c:260-273, src/protocol.c:10-50): each holds fd_mutex
 while it writes its packet, header and payload one after the other, in as many writes as it takes.

 A step is a lock, one write of some bytes, an interrupted write, a failed write, or an unlock.
 */
module SendMutex {
  import opened Games
  import opened Packets
  import opened Protocol

  datatype Place =
    | Start
    | Sending(done: nat)   // has the mutex; this many bytes are written
    | Leaving(ok: bool)    // about to unlock
    | Finished(ok: bool)

  datatype Event = Lock | Write(n: nat) | Interrupt | Fail | Unlock

  /** `order` and `cuts` are history: who locked the mutex, in order, and how many bytes each has written. */
  datatype State = State(packets: seq<Frame>, places: seq<Place>, mutex: int, wire: seq<Byte>, order: seq<nat>,
      cuts: seq<nat>)

  const NOBODY := -1

  predicate Shape(s: State) {
    |s.packets| == |s.places| && |s.order| == |s.cuts|
  }

  /** How many bytes the current call of write is given: the rest of the header, or the rest of the payload. */
  function Offered(p: Frame, done: nat): nat
    requires done <= |Encode(p)|
  {
    if done < HEADER_SIZE then HEADER_SIZE - done else |Encode(p)| - done
  }

  predicate Possible(s: State, t: nat, e: Event)
    requires Shape(s) && t < |s.places|
  {
    match e
    case Lock => s.places[t] == Start && s.mutex == NOBODY
    case Write(n) =>
      && s.places[t].Sending? && s.places[t].done < |Encode(s.packets[t])|
      && 0 < n <= Offered(s.packets[t], s.places[t].done)
      && |s.order| > 0
    case Interrupt => s.places[t].Sending?
    case Fail => s.places[t].Sending?
    case Unlock => s.places[t].Leaving?
  }

  function Go(s: State, t: nat, p: Place): State
    requires t < |s.places|
  {
    s.(places := s.places[t := p])
  }

  function Step(s: State, t: nat, e: Event): (s': State)
    requires Shape(s) && t < |s.places| && Possible(s, t, e)
    ensures Shape(s') && s'.packets == s.packets
  {
    match e
    case Lock => Go(s, t, Sending(0)).(mutex := t, order := s.order + [t], cuts := s.cuts + [0])
    case Write(n) =>
      var done := s.places[t].done;
      var bytes := Encode(s.packets[t]);
      Go(s, t, if done + n == |bytes| then Leaving(true) else Sending(done + n))
      .(wire := s.wire + bytes[done..done + n], cuts := s.cuts[|s.cuts| - 1 := done + n])
    case Interrupt => s
    case Fail => Go(s, t, Leaving(false))
    case Unlock => Go(s, t, Finished(s.places[t].ok)).(mutex := NOBODY)
  }

  predicate Initial(s: State) {
    && Shape(s) && s.mutex == NOBODY && s.wire == [] && s.order == []
    && forall t :: 0 <= t < |s.places| ==> s.places[t] == Start && s.packets[t].Fits()
  }

  /** The threads' contributions one after the other. */
  function Joined(packets: seq<Frame>, order: seq<nat>, cuts: seq<nat>): seq<Byte>
    requires |order| == |cuts|
    requires forall k :: 0 <= k < |order| ==> order[k] < |packets| && cuts[k] <= |Encode(packets[order[k]])|
  {
    if order == [] then []
    else
      var n := |order| - 1;
      Joined(packets, order[..n], cuts[..n]) + Encode(packets[order[n]])[..cuts[n]]
  }

  ghost predicate ThreadOk(s: State, t: nat)
    requires Shape(s) && t < |s.places|
  {
    && (s.places[t].Sending? || s.places[t].Leaving? <==> s.mutex == t)
    && (s.places[t] == Start <==> t !in s.order)
    && (s.places[t].Sending? ==> |s.order| > 0 && s.cuts[|s.cuts| - 1] == s.places[t].done < |Encode(s.packets[t])|)
  }

  /** A thread that got through has its whole packet on the wire. */
  ghost predicate SliceOk(s: State, k: nat)
    requires Shape(s) && k < |s.order|
  {
    && s.order[k] < |s.packets| && s.cuts[k] <= |Encode(s.packets[s.order[k]])|
    && (s.places[s.order[k]] == Leaving(true) || s.places[s.order[k]] == Finished(true) ==>
         s.cuts[k] == |Encode(s.packets[s.order[k]])|)
  }

  ghost predicate Inv(s: State) {
    && Shape(s)
    && (s.mutex == NOBODY || (0 <= s.mutex < |s.places| && |s.order| > 0 && s.order[|s.order| - 1] == s.mutex))
    && (forall t {:trigger ThreadOk(s, t)} :: 0 <= t < |s.places| ==> ThreadOk(s, t))
    && (forall k {:trigger SliceOk(s, k)} :: 0 <= k < |s.order| ==> SliceOk(s, k))
    && (forall k, l :: 0 <= k < l < |s.order| ==> s.order[k] != s.order[l])
    && (forall k :: 0 <= k < |s.order| ==> s.order[k] < |s.packets| && s.cuts[k] <= |Encode(s.packets[s.order[k]])|)
    && s.wire == Joined(s.packets, s.order, s.cuts)
  }

  /** The wire after one more contribution, or a longer last one. */
  lemma JoinedLast(packets: seq<Frame>, order: seq<nat>, cuts: seq<nat>, cut: nat)
    requires |order| == |cuts| > 0
    requires forall k :: 0 <= k < |order| ==> order[k] < |packets| && cuts[k] <= |Encode(packets[order[k]])|
    requires cuts[|cuts| - 1] <= cut <= |Encode(packets[order[|order| - 1]])|
    ensures Joined(packets, order, cuts[|cuts| - 1 := cut])
         == Joined(packets, order, cuts) + Encode(packets[order[|order| - 1]])[cuts[|cuts| - 1]..cut]
  {
    var n := |order| - 1;
    assert cuts[n := cut][..n] == cuts[..n];
    var bytes := Encode(packets[order[n]]);
    assert bytes[..cut] == bytes[..cuts[n]] + bytes[cuts[n]..cut];
  }

  lemma JoinedMore(packets: seq<Frame>, order: seq<nat>, cuts: seq<nat>, t: nat)
    requires |order| == |cuts| && t < |packets|
    requires forall k :: 0 <= k < |order| ==> order[k] < |packets| && cuts[k] <= |Encode(packets[order[k]])|
    ensures Joined(packets, order + [t], cuts + [0]) == Joined(packets, order, cuts)
  {
    assert (order + [t])[..|order|] == order && (cuts + [0])[..|cuts|] == cuts;
    assert Encode(packets[t])[..0] == [];
  }

  lemma LockStep(s: State, t: nat)
    requires Inv(s) && t < |s.places| && Possible(s, t, Lock)
    ensures Inv(Step(s, t, Lock))
  {
    var s' := Step(s, t, Lock);
    assert ThreadOk(s, t);
    forall u | 0 <= u < |s'.places|
      ensures ThreadOk(s', u)
    {
      assert ThreadOk(s, u);
    }
    forall k | 0 <= k < |s'.order|
      ensures SliceOk(s', k)
    {
      assert k < |s.order| ==> SliceOk(s, k);
    }
    JoinedMore(s.packets, s.order, s.cuts, t);
  }

  lemma WriteStep(s: State, t: nat, n: nat)
    requires Inv(s) && t < |s.places| && Possible(s, t, Write(n))
    ensures Inv(Step(s, t, Write(n)))
  {
    var s' := Step(s, t, Write(n));
    assert ThreadOk(s, t);
    forall u | 0 <= u < |s'.places|
      ensures ThreadOk(s', u)
    {
      assert ThreadOk(s, u);
    }
    forall k | 0 <= k < |s'.order|
      ensures SliceOk(s', k)
    {
      assert SliceOk(s, k);
    }
    JoinedLast(s.packets, s.order, s.cuts, s.places[t].done + n);
  }

  lemma StepInv(s: State, t: nat, e: Event)
    requires Inv(s) && t < |s.places| && Possible(s, t, e)
    ensures Inv(Step(s, t, e))
  {
    if e == Lock {
      LockStep(s, t);
    } else if e.Write? {
      WriteStep(s, t, e.n);
    } else {
      var s' := Step(s, t, e);
      assert ThreadOk(s, t);
      forall u | 0 <= u < |s'.places|
        ensures ThreadOk(s', u)
      {
        assert ThreadOk(s, u);
      }
      forall k | 0 <= k < |s'.order|
        ensures SliceOk(s', k)
      {
        assert SliceOk(s, k);
      }
    }
  }

  // ---------------------------------------------------------------- runs

  /** A schedule says which thread does what; what is not possible when its turn comes does not happen. */
  function Run(s: State, schedule: seq<(nat, Event)>): (r: State)
    requires Shape(s)
    ensures Shape(r) && r.packets == s.packets
    decreases |schedule|
  {
    if schedule == [] then s
    else
      var (t, e) := schedule[0];
      Run(if t < |s.places| && Possible(s, t, e) then Step(s, t, e) else s, schedule[1..])
  }

  lemma {:induction false} RunInv(s: State, schedule: seq<(nat, Event)>)
    requires Inv(s)
    ensures Inv(Run(s, schedule))
    decreases |schedule|
  {
    if schedule != [] {
      var (t, e) := schedule[0];
      if t < |s.places| && Possible(s, t, e) {
        StepInv(s, t, e);
        RunInv(Step(s, t, e), schedule[1..]);
      } else {
        RunInv(s, schedule[1..]);
      }
    }
  }

  lemma InitialInv(s: State)
    requires Initial(s)
    ensures Inv(s)
  {
    forall t | 0 <= t < |s.places|
      ensures ThreadOk(s, t)
    {
    }
  }

  /** The packets of the threads in the order given. */
  function InOrder(packets: seq<Frame>, order: seq<nat>): (r: seq<Frame>)
    requires forall k :: 0 <= k < |order| ==> order[k] < |packets|
    ensures |r| == |order| && forall k :: 0 <= k < |order| ==> r[k] == packets[order[k]]
  {
    seq(|order|, k requires 0 <= k < |order| => packets[order[k]])
  }

  lemma {:induction false} JoinedWhole(packets: seq<Frame>, order: seq<nat>, cuts: seq<nat>)
    requires |order| == |cuts|
    requires forall k :: 0 <= k < |order| ==> order[k] < |packets| && cuts[k] == |Encode(packets[order[k]])|
    ensures Joined(packets, order, cuts) == EncodeAll(InOrder(packets, order))
  {
    if order != [] {
      var n := |order| - 1;
      JoinedWhole(packets, order[..n], cuts[..n]);
      assert InOrder(packets, order) == InOrder(packets, order[..n]) + [packets[order[n]]];
      EncodeAllAppend(InOrder(packets, order[..n]), packets[order[n]]);
      assert Encode(packets[order[n]])[..cuts[n]] == Encode(packets[order[n]]);
    }
  }

  /** No write has failed. */
  predicate Unbroken(s: State) {
    forall t :: 0 <= t < |s.places| ==> s.places[t] != Leaving(false) && s.places[t] != Finished(false)
  }

  /** A thread before the one that has the mutex got through. */
  lemma CutWhole(r: State, k: nat)
    requires Inv(r) && Unbroken(r) && k < |r.order| && (r.mutex == NOBODY || k < |r.order| - 1)
    ensures r.order[k] < |r.packets| && r.cuts[k] == |Encode(r.packets[r.order[k]])|
  {
    assert SliceOk(r, k) && ThreadOk(r, r.order[k]);
    assert r.order[k] in r.order;
  }

  /** The first n contributions are whole packets. */
  lemma FirstWhole(r: State, n: nat)
    requires Inv(r) && Unbroken(r) && n <= |r.order| && (r.mutex == NOBODY || n < |r.order|)
    ensures Joined(r.packets, r.order[..n], r.cuts[..n]) == EncodeAll(InOrder(r.packets, r.order[..n]))
  {
    forall k | 0 <= k < n
      ensures r.cuts[k] == |Encode(r.packets[r.order[k]])|
    {
      CutWhole(r, k);
    }
    JoinedWhole(r.packets, r.order[..n], r.cuts[..n]);
  }

  /** The wire holds the first n packets whole, and then a beginning of the packet of the thread that has the mutex. */
  ghost predicate InLockOrder(r: State) {
    && (forall k :: 0 <= k < |r.order| ==> r.order[k] < |r.packets|)
    && (forall k, l :: 0 <= k < l < |r.order| ==> r.order[k] != r.order[l])
    && if r.mutex == NOBODY then r.wire == EncodeAll(InOrder(r.packets, r.order))
       else
         && |r.order| > 0 && 0 <= r.mutex < |r.packets| && r.order[|r.order| - 1] == r.mutex
         && var whole := EncodeAll(InOrder(r.packets, r.order[..|r.order| - 1]));
            whole <= r.wire <= whole + Encode(r.packets[r.mutex])
  }

  lemma WireBetween(r: State)
    requires Inv(r) && Unbroken(r) && r.mutex == NOBODY
    ensures InLockOrder(r)
  {
    FirstWhole(r, |r.order|);
    assert r.order[..|r.order|] == r.order && r.cuts[..|r.order|] == r.cuts;
  }

  lemma Between(whole: seq<Byte>, bytes: seq<Byte>, n: nat)
    requires n <= |bytes|
    ensures whole <= whole + bytes[..n] <= whole + bytes
  {
    assert bytes == bytes[..n] + bytes[n..];
  }

  lemma WireDuring(r: State)
    requires Inv(r) && Unbroken(r) && r.mutex != NOBODY
    ensures InLockOrder(r)
  {
    var n := |r.order| - 1;
    FirstWhole(r, n);
    Between(EncodeAll(InOrder(r.packets, r.order[..n])), Encode(r.packets[r.mutex]), r.cuts[n]);
  }

  /**
   As long as no write fails, the wire holds the whole packets of the threads that got through, in the
   order in which they locked the mutex, and then a beginning of the packet of the thread that has it.
   */
  lemma WholePackets(s: State, schedule: seq<(nat, Event)>)
    requires Initial(s) && Unbroken(Run(s, schedule))
    ensures InLockOrder(Run(s, schedule))
  {
    InitialInv(s);
    RunInv(s, schedule);
    var r := Run(s, schedule);
    if r.mutex == NOBODY {
      WireBetween(r);
    } else {
      WireDuring(r);
    }
  }

  lemma {:induction false} JoinedShort(packets: seq<Frame>, order: seq<nat>, cuts: seq<nat>)
    requires |order| == |cuts|
    requires forall k :: 0 <= k < |order| ==> order[k] < |packets| && cuts[k] <= |Encode(packets[order[k]])|
    ensures |Joined(packets, order, cuts)| <= |EncodeAll(InOrder(packets, order))|
    ensures |Joined(packets, order, cuts)| == |EncodeAll(InOrder(packets, order))| <==>
              forall k :: 0 <= k < |order| ==> cuts[k] == |Encode(packets[order[k]])|
  {
    if order != [] {
      var n := |order| - 1;
      JoinedShort(packets, order[..n], cuts[..n]);
      assert InOrder(packets, order) == InOrder(packets, order[..n]) + [packets[order[n]]];
      EncodeAllAppend(InOrder(packets, order[..n]), packets[order[n]]);
    }
  }

  /** The thread's packet is on the wire in part, and it will not write the rest. */
  predicate Torn(r: State, k: nat)
    requires k < |r.order| == |r.cuts| && r.order[k] < |r.packets|
  {
    r.cuts[k] < |Encode(r.packets[r.order[k]])|
  }

  /**
   Whatever writes fail: the wire is one beginning of each sender's packet, in lock order; a packet is
   incomplete only if its sender still has the mutex or its write failed; and when nobody has the mutex
   the wire is the list of whole packets exactly when no packet is incomplete.
   */
  lemma TornOnlyByFailure(s: State, schedule: seq<(nat, Event)>)
    requires Initial(s)
    ensures var r := Run(s, schedule);
            && |r.order| == |r.cuts|
                 && (forall k :: 0 <= k < |r.order| ==> r.order[k] < |r.packets| && r.order[k] < |r.places|)
            && (forall k :: 0 <= k < |r.order| && Torn(r, k) ==>
                  r.mutex == r.order[k] || r.places[r.order[k]] == Finished(false))
            && (r.mutex == NOBODY ==>
                  (r.wire == EncodeAll(InOrder(r.packets, r.order)) <==> forall k :: 0 <= k < |r.order| ==>
                      !Torn(r, k)))
  {
    InitialInv(s);
    RunInv(s, schedule);
    TornIn(Run(s, schedule));
  }

  lemma TornIn(r: State)
    requires Inv(r)
    ensures forall k :: 0 <= k < |r.order| ==> r.order[k] < |r.packets|
    ensures forall k :: 0 <= k < |r.order| && Torn(r, k) ==>
      r.mutex == r.order[k] || r.places[r.order[k]] == Finished(false)
    ensures r.wire == EncodeAll(InOrder(r.packets, r.order)) <==> forall k :: 0 <= k < |r.order| ==> !Torn(r, k)
  {
    forall k | 0 <= k < |r.order| && Torn(r, k)
      ensures r.mutex == r.order[k] || r.places[r.order[k]] == Finished(false)
    {
      TornThread(r, k);
    }
    TornWire(r);
  }

  lemma TornThread(r: State, k: nat)
    requires Inv(r) && k < |r.order| && Torn(r, k)
    ensures r.mutex == r.order[k] || r.places[r.order[k]] == Finished(false)
  {
    assert SliceOk(r, k) && ThreadOk(r, r.order[k]);
    assert r.order[k] in r.order;
  }

  lemma TornWire(r: State)
    requires Inv(r)
    ensures r.wire == EncodeAll(InOrder(r.packets, r.order)) <==> forall k :: 0 <= k < |r.order| ==> !Torn(r, k)
  {
    JoinedShort(r.packets, r.order, r.cuts);
    if forall k :: 0 <= k < |r.order| ==> !Torn(r, k) {
      forall k | 0 <= k < |r.order|
        ensures r.cuts[k] == |Encode(r.packets[r.order[k]])|
      {
        assert !Torn(r, k);
      }
      JoinedWhole(r.packets, r.order, r.cuts);
    }
  }

  /** What the receiver then reads: the packets, one by one, in the order of the lock. */
  lemma PacketsArriveInLockOrder(s: State, schedule: seq<(nat, Event)>)
    requires Initial(s) && Unbroken(Run(s, schedule)) && Run(s, schedule).mutex == NOBODY
    ensures var r := Run(s, schedule);
            && (forall k :: 0 <= k < |r.order| ==> r.order[k] < |s.packets|)
            && DecodeMany(r.wire, |r.order|) == Some((InOrder(s.packets, r.order), []))
  {
    WholePackets(s, schedule);
    var r := Run(s, schedule);
    StreamRoundTrip(InOrder(s.packets, r.order), []);
    assert r.wire + [] == r.wire;
  }
}
