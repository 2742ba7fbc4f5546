/**
 Framing: src/protocol.c over a socket whose reads and writes take any number of bytes at a time, may be
 interrupted, and may fail.  The network is `Socket`; nothing is known of it but its contracts.
 */
module Protocol {
  import opened Games
  import opened Packets

  datatype Errno = Interrupted | Broken

  /**
   A connected socket.  `sent` is what the peer will read, `pending` what this side will have read when
   the stream ends.  `patience` bounds how often from here on a call makes no progress; `broken` says
   whether one has failed for good.
   */
  class Socket {
    var sent: seq<Byte>
    var pending: seq<Byte>
    var patience: nat
    var broken: bool

    /** write: some first bytes are taken, or none with an error. */
    method Write(buf: seq<Byte>) returns (n: int, errno: Errno)
      requires |buf| > 0
      modifies this
      ensures pending == old(pending) && patience <= old(patience) && (old(broken) ==> broken)
      ensures n == -1 || 0 <= n <= |buf|
      ensures sent == old(sent) + buf[..if n == -1 then 0 else n]
      ensures n == 0 || (n == -1 && errno == Interrupted) ==> patience < old(patience)
      ensures n == -1 && errno == Broken ==> broken
    {
      var choice: int := *;
      errno := Broken;
      n := if choice < 0 then -1 else if choice < |buf| then choice else |buf|;
      if n <= 0 {
        if patience == 0 {
          n := -1;
          broken := true;
        } else {
          patience := patience - 1;
          errno := Interrupted;
        }
      } else {
        sent := sent + buf[..n];
      }
    }

    /** read: some bytes of what is pending, or none when the stream has ended or with an error. */
    method Read(size: nat) returns (n: int, data: seq<Byte>, errno: Errno)
      requires size > 0
      modifies this
      ensures sent == old(sent) && patience <= old(patience) && (old(broken) ==> broken)
      ensures n == -1 || 0 <= n <= size
      ensures |data| == if n == -1 then 0 else n
      ensures old(pending) == data + pending
      ensures n == 0 ==> pending == []
      ensures n == -1 && errno == Interrupted ==> patience < old(patience)
      ensures n == -1 && errno == Broken ==> broken
    {
      var choice: int := *;
      errno := Broken;
      data := [];
      n := if choice < 0 then -1 else if choice == 0 then 1 else if choice < size then choice else size;
      if n > |pending| {
        n := |pending|;
      }
      if n == -1 {
        if patience > 0 {
          patience := patience - 1;
          errno := Interrupted;
        } else {
          broken := true;
        }
      } else {
        data := pending[..n];
        pending := pending[n..];
      }
    }
  }

  /** fd_op with write: everything is written or, if the connection breaks, a first part. */
  method WriteAll(fd: Socket, bytes: seq<Byte>) returns (r: int)
    modifies fd
    ensures fd.pending == old(fd.pending)
    ensures r == 1 || r == -1
    ensures r == 1 ==> fd.sent == old(fd.sent) + bytes
    ensures r == -1 ==> old(fd.sent) <= fd.sent < old(fd.sent) + bytes && fd.broken
  {
    var size := |bytes|;
    while size > 0
      invariant 0 <= size <= |bytes|
      invariant fd.pending == old(fd.pending)
      invariant fd.sent == old(fd.sent) + bytes[..|bytes| - size]
      decreases size, fd.patience
    {
      var n_processed, errno := fd.Write(bytes[|bytes| - size..]);
      assert bytes[..|bytes| - size] + bytes[|bytes| - size..][..if n_processed == -1 then 0 else n_processed]
          == bytes[..|bytes| - size + if n_processed == -1 then 0 else n_processed];
      if n_processed == -1 {
        if errno == Interrupted {
          n_processed := 0;
        } else {
          assert |fd.sent| < |old(fd.sent) + bytes|;
          return -1;
        }
      }
      size := size - n_processed;
    }
    return 1;
  }

  /** fd_op with read: exactly the next bytes or, if the stream ends or the connection breaks, fewer. */
  method ReadAll(fd: Socket, wanted: nat) returns (r: int, bytes: seq<Byte>)
    modifies fd
    ensures fd.sent == old(fd.sent)
    ensures r == 1 || r == -1
    ensures old(fd.pending) == bytes + fd.pending
    ensures r == 1 ==> |bytes| == wanted
    ensures old(fd.broken) ==> fd.broken
    ensures r == -1 ==> |bytes| < wanted && (fd.broken || fd.pending == [])
  {
    var size := wanted;
    bytes := [];
    while size > 0
      invariant 0 <= size <= wanted && |bytes| == wanted - size
      invariant fd.sent == old(fd.sent) && old(fd.pending) == bytes + fd.pending && (old(fd.broken) ==> fd.broken)
      decreases size, fd.patience
    {
      var n_processed, data, errno := fd.Read(size);
      bytes := bytes + data;
      if n_processed == 0 {
        return -1, bytes;
      }
      if n_processed == -1 {
        if errno == Interrupted {
          n_processed := 0;
        } else {
          return -1, bytes;
        }
      }
      size := size - n_processed;
    }
    return 1, bytes;
  }

  /** A packet: the header as it is in memory, and the payload, if there is one. */
  datatype Frame = Frame(header: Fields, payload: Option<seq<Byte>>) {
    function Size(): nat {
      Swap16(header.size)
    }

    /** The payload has as many bytes as the header says, and is missing when that is none. */
    predicate Fits() {
      if payload == None then Size() == 0 else |payload.value| == Size() && Size() > 0
    }
  }

  /** A packet's bytes on the wire. */
  function Encode(p: Frame): seq<Byte> {
    Image(p.header) + if p.payload == None then [] else p.payload.value
  }

  /** The packet at the start of a byte stream and what follows it, if all of it is there. */
  function Decode(stream: seq<Byte>): Option<(Frame, seq<Byte>)> {
    if |stream| < HEADER_SIZE then None
    else
      var header := FromImage(stream[..HEADER_SIZE]);
      var size: nat := Swap16(header.size);
      if |stream| < HEADER_SIZE + size then None
      else
        Some((Frame(header, if size == 0 then None else Some(stream[HEADER_SIZE..HEADER_SIZE + size])),
            stream[HEADER_SIZE + size..]))
  }

  lemma DecodeEncode(p: Frame, rest: seq<Byte>)
    requires p.Fits()
    ensures Decode(Encode(p) + rest) == Some((p, rest))
  {
    var stream := Encode(p) + rest;
    assert stream[..HEADER_SIZE] == Image(p.header);
    ImageRoundTrip(p.header);
    assert |Encode(p)| == HEADER_SIZE + p.Size();
    assert stream[HEADER_SIZE + p.Size()..] == rest;
    if p.payload != None {
      assert stream[HEADER_SIZE..HEADER_SIZE + p.Size()] == p.payload.value;
    }
  }

  function EncodeAll(ps: seq<Frame>): seq<Byte> {
    if ps == [] then [] else Encode(ps[0]) + EncodeAll(ps[1..])
  }

  /** The first n packets of a stream and what follows them. */
  function DecodeMany(stream: seq<Byte>, n: nat): Option<(seq<Frame>, seq<Byte>)> {
    if n == 0 then Some(([], stream))
    else
      match Decode(stream)
      case None => None
      case Some((p, rest)) =>
        match DecodeMany(rest, n - 1)
        case None => None
        case Some((ps, last)) => Some(([p] + ps, last))
  }

  /** Any list of packets is read back as it was sent, and exactly its bytes are consumed. */
  lemma {:induction false} StreamRoundTrip(ps: seq<Frame>, rest: seq<Byte>)
    requires forall k :: 0 <= k < |ps| ==> ps[k].Fits()
    ensures DecodeMany(EncodeAll(ps) + rest, |ps|) == Some((ps, rest))
  {
    if ps == [] {
      assert EncodeAll(ps) + rest == rest;
    } else {
      assert EncodeAll(ps) + rest == Encode(ps[0]) + (EncodeAll(ps[1..]) + rest);
      DecodeEncode(ps[0], EncodeAll(ps[1..]) + rest);
      StreamRoundTrip(ps[1..], rest);
      assert [ps[0]] + ps[1..] == ps;
    }
  }

  lemma {:induction false} EncodeAllAppend(ps: seq<Frame>, p: Frame)
    ensures EncodeAll(ps + [p]) == EncodeAll(ps) + Encode(p)
  {
    if ps == [] {
      assert [p][1..] == [] && EncodeAll([p]) == Encode(p) + [];
    } else {
      assert (ps + [p])[1..] == ps[1..] + [p];
      EncodeAllAppend(ps[1..], p);
    }
  }

  /** The buffer holds at least as many bytes as the header says. */
  predicate Covers(hdr: Fields, data: Option<seq<Byte>>) {
    data != None ==> |data.value| >= Swap16(hdr.size) as int
  }

  /** What is sent for a header and a buffer: the size in the header rules, if there is a buffer. */
  function OnWire(hdr: Fields, data: Option<seq<Byte>>): seq<Byte>
    requires Covers(hdr, data)
  {
    Image(hdr) + if data == None then [] else data.value[..Swap16(hdr.size)]
  }

  lemma FitsOnWire(p: Frame)
    requires p.Fits()
    ensures Covers(p.header, p.payload) && OnWire(p.header, p.payload) == Encode(p)
  {
    if p.payload != None {
      assert p.payload.value[..Swap16(p.header.size)] == p.payload.value;
    }
  }

  /**
   A buffer of any length sent under a header that announces its length: what arrives is as much of it as
   the size field's sixteen bits say, all of it exactly when it is shorter than 65,536 bytes, and the
   receiver stays in step.
   */
  lemma ArrivesCut(kind: Byte, id: int, role: Byte, sec: nat, nsec: nat, data: seq<Byte>, rest: seq<Byte>)
    ensures var hdr, n := Packed(kind, id, role, |data|, sec, nsec), |data| % 0x1_0000;
            && Covers(hdr, Some(data))
            && Decode(OnWire(hdr, Some(data)) + rest)
            == Some((Frame(hdr, if n == 0 then None else Some(data[..n])), rest))
            && (data[..n] == data <==> |data| < 0x1_0000)
  {
    var hdr := Packed(kind, id, role, |data|, sec, nsec);
    Announces(kind, id, role, |data|, sec, nsec);
    AnnouncedArrives(hdr, |data| % 0x1_0000, data, rest);
  }

  lemma Announces(kind: Byte, id: int, role: Byte, size: nat, sec: nat, nsec: nat)
    ensures Swap16(Packed(kind, id, role, size, sec, nsec).size) == size % 0x1_0000
  {
    SwapTwice(Narrow16(size), 0);
  }

  lemma AnnouncedArrives(hdr: Fields, n: nat, data: seq<Byte>, rest: seq<Byte>)
    requires Swap16(hdr.size) == n <= |data|
    ensures Decode(OnWire(hdr, Some(data)) + rest)
         == Some((Frame(hdr, if n == 0 then None else Some(data[..n])), rest))
  {
    var p := Frame(hdr, if n == 0 then None else Some(data[..n]));
    assert OnWire(hdr, Some(data)) == Encode(p);
    DecodeEncode(p, rest);
  }

  /** The receiver stays in step exactly when there is a buffer, or none is announced. */
  lemma FramedIff(hdr: Fields, data: Option<seq<Byte>>, rest: seq<Byte>)
    requires Covers(hdr, data)
    ensures var d := Decode(OnWire(hdr, data) + rest);
            (d.Some? && d.value.1 == rest) <==> (data != None || Swap16(hdr.size) == 0)
  {
    var size: nat := Swap16(hdr.size);
    var stream := OnWire(hdr, data) + rest;
    assert stream[..HEADER_SIZE] == Image(hdr);
    ImageRoundTrip(hdr);
    if data != None || size == 0 {
      assert |OnWire(hdr, data)| == HEADER_SIZE + size;
      assert stream[HEADER_SIZE + size..] == rest;
    } else if |rest| >= size {
      assert |stream[HEADER_SIZE + size..]| == |rest| - size;
    }
  }

  /**
   proto_send_packet: the header, then the payload, if there is one and the size is not zero.  When the
   connection breaks, a proper part of that has been sent.
   */
  method SendPacket(fd: Socket, hdr: Fields, data: Option<seq<Byte>>) returns (r: int)
    requires Covers(hdr, data)
    modifies fd
    ensures fd.pending == old(fd.pending)
    ensures r == 0 || r == -1
    ensures r == 0 ==> fd.sent == old(fd.sent) + OnWire(hdr, data)
    ensures r == -1 ==> old(fd.sent) <= fd.sent < old(fd.sent) + OnWire(hdr, data) && fd.broken
  {
    var status := WriteAll(fd, Image(hdr));
    if status == -1 {
      return -1;
    }
    var sz := Swap16(hdr.size);
    if data != None && sz > 0 {
      status := WriteAll(fd, data.value[..sz]);
      if status == -1 {
        return -1;
      }
    }
    return 0;
  }

  /** What happens to a list of packets handed over one after the other. */
  method SendPackets(fd: Socket, ps: seq<Frame>) returns (r: int)
    requires forall k :: 0 <= k < |ps| ==> ps[k].Fits()
    modifies fd
    ensures fd.pending == old(fd.pending)
    ensures r == 0 || r == -1
    ensures r == 0 ==> fd.sent == old(fd.sent) + EncodeAll(ps)
    ensures r == -1 ==> fd.broken && old(fd.sent) <= fd.sent < old(fd.sent) + EncodeAll(ps)
    decreases |ps|
  {
    if ps == [] {
      return 0;
    }
    ghost var first, rest := Encode(ps[0]), EncodeAll(ps[1..]);
    FitsOnWire(ps[0]);
    r := SendPacket(fd, ps[0].header, ps[0].payload);
    assert (old(fd.sent) + first) + rest == old(fd.sent) + (first + rest);
    if r == 0 {
      r := SendPackets(fd, ps[1..]);
    }
  }

  /**
   proto_recv_packet: on success exactly the next packet of the stream, and not a byte more, is consumed.
   It fails only when there is no whole packet or the connection breaks.
   */
  method RecvPacket(fd: Socket) returns (r: int, hdr: Fields, payload: Option<seq<Byte>>)
    modifies fd
    ensures fd.sent == old(fd.sent)
    ensures r == 0 || r == -1
    ensures r == 0 ==> Decode(old(fd.pending)) == Some((Frame(hdr, payload), fd.pending))
    ensures r == -1 ==> fd.broken || Decode(old(fd.pending)) == None
    ensures old(fd.broken) ==> fd.broken
  {
    hdr, payload := Fields(0, 0, 0, 0, 0, 0), None;
    var status, bytes := ReadAll(fd, HEADER_SIZE);
    if status == -1 {
      return -1, hdr, None;
    }
    hdr := FromImage(bytes);
    var payload_size := Swap16(hdr.size);
    if payload_size > 0 {
      var body;
      status, body := ReadAll(fd, payload_size);
      if status == -1 {
        return -1, hdr, None;
      }
      payload := Some(body);
      assert old(fd.pending)[HEADER_SIZE..HEADER_SIZE + payload_size as int] == body;
      assert old(fd.pending)[HEADER_SIZE + payload_size as int..] == fd.pending;
    }
    assert old(fd.pending)[..HEADER_SIZE] == bytes;
    return 0, hdr, payload;
  }

  /** The receiving loop of a service thread: as many packets as asked for, or the first failure. */
  method RecvPackets(fd: Socket, n: nat) returns (r: int, ps: seq<Frame>)
    modifies fd
    ensures r == 0 || r == -1
    ensures r == 0 ==> DecodeMany(old(fd.pending), n) == Some((ps, fd.pending))
    ensures r == -1 ==> fd.broken || DecodeMany(old(fd.pending), n) == None
    decreases n
  {
    if n == 0 {
      return 0, [];
    }
    var status, hdr, payload := RecvPacket(fd);
    if status == -1 {
      return -1, [];
    }
    var rest;
    status, rest := RecvPackets(fd, n - 1);
    return status, [Frame(hdr, payload)] + rest;
  }

  /**
   Whatever list of packets lies in the stream, however it is cut up: unless the connection breaks,
   reading returns that list and leaves what follows.
   */
  method ReceiveSent(fd: Socket, ghost ps: seq<Frame>, ghost rest: seq<Byte>, n: nat)
    returns (r: int, received: seq<Frame>)
    requires fd.pending == EncodeAll(ps) + rest && n == |ps| && forall k :: 0 <= k < |ps| ==> ps[k].Fits()
    modifies fd
    ensures if r == 0 then received == ps && fd.pending == rest else fd.broken
  {
    StreamRoundTrip(ps, rest);
    r, received := RecvPackets(fd, n);
  }

  /**
   End to end: a list of packets sent over one socket, however the writes are cut up, and read from its
   peer, however the reads are.  `here.sent` is what arrives there.  Unless a connection breaks, the list
   received is the list sent, and nothing is left over.
   */
  method Transmit(here: Socket, there: Socket, ps: seq<Frame>) returns (ok: bool, received: seq<Frame>)
    requires here != there && here.sent == [] && forall k :: 0 <= k < |ps| ==> ps[k].Fits()
    modifies here, there
    ensures if ok then received == ps && there.pending == [] else here.broken || there.broken
  {
    received := [];
    var r := SendPackets(here, ps);
    if r == -1 {
      return false, [];
    }
    there.pending := here.sent;
    assert there.pending == EncodeAll(ps) + [];
    r, received := ReceiveSent(there, ps, [], |ps|);
    ok := r == 0;
  }
}
