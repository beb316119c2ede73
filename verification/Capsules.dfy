/**
 Capsule framing (section 3.2 of RFC 9297) on the response body of a
 CONNECT-UDP bind, and the COMPRESSION capsules built and read there.

 `ParseOne` and `ParseAll` say what a byte string contains; `CapsuleReader` is the
 event loop's growing buffer, proved to compute them however the body is cut.
 */
module Capsules {
  import opened Wrappers
  import opened VarInt

  /** A slice in memory, whose length is a `usize` (64 bits here). */
  type Payload = s: seq<Byte> | |s| <= USIZE_MAX

  datatype Capsule = Capsule(kind: U64, payload: Payload)
  datatype Parsed = Incomplete | Complete(capsule: Capsule, rest: seq<Byte>)
  datatype Contents = Contents(capsules: seq<Capsule>, residue: seq<Byte>)

  /** What a received capsule makes the event loop ask of the two forwarders. */
  datatype Request = UnregisterFromUdpToQuic(id: U64) | UnregisterFromQuicToUdp(id: U64)

  const COMPRESSION_ASSIGN: U64 := 0x11
  const COMPRESSION_ASSIGN_CLOSE: U64 := 0x13
  /** `usize::MAX` on a 64-bit target. */
  const USIZE_MAX: nat := 0xFFFF_FFFF_FFFF_FFFF

  /** The first capsule of `buf`, or that it is not all there yet. */
  function ParseOne(buf: seq<Byte>): (p: Parsed)
    ensures p.Complete? ==> |p.rest| < |buf|
  {
    match Decode(buf)
    case None => Incomplete
    case Some(Decoded(kind, afterKind)) =>
      match Decode(afterKind)
      case None => Incomplete
      case Some(Decoded(length, body)) =>
        if |body| < length then Incomplete
        else Complete(Capsule(kind, body[..length]), body[length..])
  }

  /** Every complete capsule of `buf` in order, and the bytes after the last. */
  function ParseAll(buf: seq<Byte>): Contents
    decreases |buf|
  {
    match ParseOne(buf)
    case Incomplete => Contents([], buf)
    case Complete(capsule, rest) =>
      var later := ParseAll(rest);
      Contents([capsule] + later.capsules, later.residue)
  }

  /** A CLOSE that carries a context id is passed to both forwarders, in this
      order; every other capsule is only logged. */
  function RequestsOf(c: Capsule): seq<Request>
  {
    if c.kind == COMPRESSION_ASSIGN_CLOSE && Decode(c.payload).Some? then
      var id := Decode(c.payload).value.value;
      [UnregisterFromUdpToQuic(id), UnregisterFromQuicToUdp(id)]
    else []
  }

  function AllRequests(capsules: seq<Capsule>): seq<Request>
  {
    if capsules == [] then [] else RequestsOf(capsules[0]) + AllRequests(capsules[1..])
  }

  function Flatten(chunks: seq<seq<Byte>>): seq<Byte>
  {
    if chunks == [] then [] else chunks[0] + Flatten(chunks[1..])
  }

  /** The bytes of one capsule: type, length, payload. */
  function Raw(c: Capsule): seq<Byte>
  {
    Encode(c.kind) + (Encode(|c.payload|) + c.payload)
  }

  ghost predicate Representable(c: Capsule)
  {
    c.kind < VARINT_LIMIT && |c.payload| < VARINT_LIMIT
  }

  function RawAll(capsules: seq<Capsule>): seq<Byte>
  {
    if capsules == [] then [] else Raw(capsules[0]) + RawAll(capsules[1..])
  }

  /** The reader's side of a response body. */
  class CapsuleReader {
    var buf: seq<Byte>
    var requests: seq<Request>
    ghost var handled: seq<Capsule>

    constructor ()
      ensures buf == [] && requests == [] && handled == []
    {
      buf, requests, handled := [], [], [];
    }

    /** The header arithmetic on the front of the buffer: where the first capsule
        ends, if it is all there.  `overflowed` is the three abnormal exits. */
    static method Front(chunk: seq<Byte>) returns (capsule: Option<Capsule>, totalLen: nat, overflowed: bool)
      ensures !overflowed
      ensures capsule.None? ==> ParseOne(chunk).Incomplete?
      ensures capsule.Some? ==> totalLen <= |chunk| && ParseOne(chunk) == Complete(capsule.value, chunk[totalLen..])
    {
      capsule, totalLen, overflowed := None, 0, false;
      var kind := DecodeVarInt(chunk);
      if kind.None? {
        return;
      }
      var afterKind := kind.value.rest;
      var kindLen := |chunk| - |afterKind|;
      var length := DecodeVarInt(afterKind);
      if length.None? {
        return;
      }
      var afterLength := length.value.rest;
      var lengthLen := |afterKind| - |afterLength|;
      HeaderIsSmall(chunk);
      hide Decode;
      var payloadLen := length.value.value;
      if payloadLen > USIZE_MAX {
        overflowed := true;
        return;
      }
      var headerLen := kindLen + lengthLen;
      if headerLen > USIZE_MAX {
        overflowed := true;
        return;
      }
      totalLen := headerLen + payloadLen;
      if totalLen > USIZE_MAX {
        overflowed := true;
        return;
      }
      if |chunk| < totalLen {
        return;
      }
      SlicesAgree(chunk, kindLen, lengthLen, payloadLen);
      capsule := Some(Capsule(kind.value.value, chunk[headerLen..totalLen]));
    }

    /** The `match` on the capsule type. */
    method Dispatch(capsule: Capsule)
      modifies this`requests
      ensures requests == old(requests) + RequestsOf(capsule)
    {
      if capsule.kind == COMPRESSION_ASSIGN_CLOSE {
        var id := DecodeVarInt(capsule.payload);
        if id.Some? {
          requests := requests + [UnregisterFromUdpToQuic(id.value.value)];
          requests := requests + [UnregisterFromQuicToUdp(id.value.value)];
        }
      }
    }

    /** One body chunk: append it, then take capsules off the front until one is
        missing bytes. */
    method Receive(bytes: seq<Byte>) returns (overflowed: bool)
      modifies this
      ensures !overflowed
      ensures var all := ParseAll(old(buf) + bytes);
              && buf == all.residue
              && handled == old(handled) + all.capsules
              && requests == old(requests) + AllRequests(all.capsules)
    {
      hide ParseOne, Decode, RequestsOf, AllRequests;
      buf := buf + bytes;
      ghost var all := ParseAll(buf);
      ghost var handledGoal := handled + all.capsules;
      ghost var requestsGoal := requests + AllRequests(all.capsules);
      while true
        invariant ParseAll(buf).residue == all.residue
        invariant handled + ParseAll(buf).capsules == handledGoal
        invariant requests + AllRequests(ParseAll(buf).capsules) == requestsGoal
        decreases |buf|
      {
        var front, totalLen, over := Front(buf);
        if over {
          return true;
        }
        if front.None? {
          NoRequests();
          return false;
        }
        var capsule := front.value;
        ghost var later := ParseAll(buf[totalLen..]).capsules;
        RequestsInOrder(requests, capsule, later);
        assert handled + ([capsule] + later) == (handled + [capsule]) + later;
        Dispatch(capsule);
        buf := buf[totalLen..];
        handled := handled + [capsule];
      }
    }

    /** A whole body, chunk by chunk. */
    method ReceiveAll(chunks: seq<seq<Byte>>)
      requires buf == [] && handled == [] && requests == []
      modifies this
      ensures var all := ParseAll(Flatten(chunks));
              && buf == all.residue && handled == all.capsules && requests == AllRequests(all.capsules)
    {
      hide ParseOne, RequestsOf;
      for i := 0 to |chunks|
        invariant var seen := ParseAll(Flatten(chunks[..i]));
                  && buf == seen.residue && handled == seen.capsules && requests == AllRequests(seen.capsules)
      {
        var overflowed := Receive(chunks[i]);
        ParseAllConcat(Flatten(chunks[..i]), chunks[i]);
        AllRequestsConcat(ParseAll(Flatten(chunks[..i])).capsules,
                          ParseAll(ParseAll(Flatten(chunks[..i])).residue + chunks[i]).capsules);
        FlattenPush(chunks[..i], chunks[i]);
        assert chunks[..i + 1] == chunks[..i] + [chunks[i]];
      }
      assert chunks[..|chunks|] == chunks;
    }
  }

  /** Both header fields decoded values below 2^62 and take at most eight bytes. */
  lemma HeaderIsSmall(chunk: seq<Byte>)
    requires Decode(chunk).Some? && Decode(Decode(chunk).value.rest).Some?
    ensures |chunk| - |Decode(chunk).value.rest| <= 8
    ensures |Decode(chunk).value.rest| - |Decode(Decode(chunk).value.rest).value.rest| <= 8
    ensures Decode(Decode(chunk).value.rest).value.value < VARINT_LIMIT
  {
    var after := Decode(chunk).value.rest;
    var n := AnnouncedWidth(after[0]);
    WithinSixtyTwoBits(after[0] % 0x40, after[1..n]);
  }

  lemma SlicesAgree(chunk: seq<Byte>, kindLen: nat, lengthLen: nat, payloadLen: nat)
    requires Decode(chunk).Some? && kindLen == |chunk| - |Decode(chunk).value.rest|
    requires var after := Decode(chunk).value.rest;
             Decode(after).Some? && lengthLen == |after| - |Decode(after).value.rest|
    requires payloadLen == Decode(Decode(chunk).value.rest).value.value
    requires kindLen + lengthLen + payloadLen <= |chunk|
    ensures var body := Decode(Decode(chunk).value.rest).value.rest;
            && payloadLen <= |body|
            && body[..payloadLen] == chunk[kindLen + lengthLen..kindLen + lengthLen + payloadLen]
            && body[payloadLen..] == chunk[kindLen + lengthLen + payloadLen..]
  {
    hide Decode;
    var after := Decode(chunk).value.rest;
    var body := Decode(after).value.rest;
    assert after == chunk[kindLen..];
    assert body == after[lengthLen..] == chunk[kindLen + lengthLen..];
  }

  lemma NoRequests()
    ensures AllRequests([]) == []
  {}

  lemma RequestsInOrder(asked: seq<Request>, c: Capsule, later: seq<Capsule>)
    ensures asked + AllRequests([c] + later) == (asked + RequestsOf(c)) + AllRequests(later)
  {
    hide RequestsOf;
    assert ([c] + later)[1..] == later;
  }

  lemma {:induction false} AllRequestsConcat(a: seq<Capsule>, b: seq<Capsule>)
    ensures AllRequests(a + b) == AllRequests(a) + AllRequests(b)
  {
    hide RequestsOf;
    if a == [] {
      assert a + b == b;
    } else {
      assert (a + b)[1..] == a[1..] + b;
      AllRequestsConcat(a[1..], b);
    }
  }

  lemma {:induction false} FlattenPush(chunks: seq<seq<Byte>>, last: seq<Byte>)
    ensures Flatten(chunks + [last]) == Flatten(chunks) + last
  {
    if chunks == [] {
      assert chunks + [last] == [last];
      assert [last][1..] == [];
      assert last + [] == last;
    } else {
      assert (chunks + [last])[1..] == chunks[1..] + [last];
      FlattenPush(chunks[1..], last);
    }
  }

  /** Appending bytes never changes a capsule that was already complete. */
  lemma ParseOneIsStable(buf: seq<Byte>, more: seq<Byte>)
    requires ParseOne(buf).Complete?
    ensures ParseOne(buf + more) == Complete(ParseOne(buf).capsule, ParseOne(buf).rest + more)
  {
    hide Decode;
    var Decoded(kind, afterKind) := Decode(buf).value;
    var Decoded(length, body) := Decode(afterKind).value;
    DecodeIsStable(buf, more);
    DecodeIsStable(afterKind, more);
    assert (body + more)[..length] == body[..length];
    assert (body + more)[length..] == body[length..] + more;
  }

  /** Reading on from a residue is reading the joined bytes. */
  lemma {:induction false} ParseAllConcat(a: seq<Byte>, b: seq<Byte>)
    ensures var first := ParseAll(a);
            var second := ParseAll(first.residue + b);
            ParseAll(a + b) == Contents(first.capsules + second.capsules, second.residue)
    decreases |a|
  {
    hide ParseOne;
    if ParseOne(a).Complete? {
      var rest := ParseOne(a).rest;
      ParseOneIsStable(a, b);
      ParseAllConcat(rest, b);
    }
  }

  /** What the residue keeps is exactly an unfinished capsule. */
  lemma {:induction false} ResidueIsIncomplete(buf: seq<Byte>)
    ensures ParseOne(ParseAll(buf).residue).Incomplete?
    decreases |buf|
  {
    hide ParseOne;
    if ParseOne(buf).Complete? {
      ResidueIsIncomplete(ParseOne(buf).rest);
    }
  }

  lemma NothingIsIncomplete()
    ensures ParseOne([]).Incomplete?
  {}

  /** Feeding chunks one after another, starting from an unfinished residue. */
  function Feed(residue: seq<Byte>, chunks: seq<seq<Byte>>): Contents
    decreases |chunks|
  {
    if chunks == [] then Contents([], residue)
    else
      var now := ParseAll(residue + chunks[0]);
      var later := Feed(now.residue, chunks[1..]);
      Contents(now.capsules + later.capsules, later.residue)
  }

  /** However the stream is cut, the capsules and the residue are those of one
      parse of the whole. */
  lemma {:induction false} ChunkingIsIrrelevant(residue: seq<Byte>, chunks: seq<seq<Byte>>)
    requires ParseOne(residue).Incomplete?
    ensures Feed(residue, chunks) == ParseAll(residue + Flatten(chunks))
    decreases |chunks|
  {
    hide ParseOne;
    if chunks == [] {
      assert residue + [] == residue;
    } else {
      var joined := residue + chunks[0];
      assert residue + Flatten(chunks) == joined + Flatten(chunks[1..]);
      ParseAllConcat(joined, Flatten(chunks[1..]));
      ResidueIsIncomplete(joined);
      ChunkingIsIrrelevant(ParseAll(joined).residue, chunks[1..]);
    }
  }

  /** A framed capsule reads back as itself exactly when its type and its length
      fit a variable-length integer. */
  lemma RawReadsBackExactly(c: Capsule, suffix: seq<Byte>)
    ensures ParseOne(Raw(c) + suffix) == Complete(c, suffix) <==> Representable(c)
  {
    hide Decode, Encode;
    var body := c.payload + suffix;
    var length := |c.payload| % VARINT_LIMIT;
    assert Raw(c) + suffix == Encode(c.kind) + (Encode(|c.payload|) + body);
    RoundTrip(c.kind, Encode(|c.payload|) + body);
    RoundTrip(|c.payload|, body);
    assert ParseOne(Raw(c) + suffix) == Complete(Capsule(c.kind % VARINT_LIMIT, body[..length]), body[length..]);
    if Representable(c) {
      assert body[..length] == c.payload && body[length..] == suffix;
    } else if c.kind < VARINT_LIMIT {
      assert |body[..length]| < |c.payload|;
    }
  }

  /** A framed capsule cut short anywhere is incomplete, never another capsule. */
  lemma TruncatedCapsuleIsIncomplete(c: Capsule, cut: nat)
    requires Representable(c) && cut < |Raw(c)|
    ensures ParseOne(Raw(c)[..cut]).Incomplete?
  {
    hide ParseOne, Raw;
    var head, tail := Raw(c)[..cut], Raw(c)[cut..];
    assert head + tail == Raw(c) == Raw(c) + [];
    RawReadsBackExactly(c, []);
    if ParseOne(head).Complete? {
      ParseOneIsStable(head, tail);
      assert false;
    }
  }

  /** Writing any list of capsules and reading the bytes returns that list, with
      whatever unfinished bytes follow left over. */
  lemma {:induction false} CapsuleRoundTrip(capsules: seq<Capsule>, unfinished: seq<Byte>)
    requires forall c | c in capsules :: Representable(c)
    requires ParseOne(unfinished).Incomplete?
    ensures ParseAll(RawAll(capsules) + unfinished) == Contents(capsules, unfinished)
  {
    hide ParseOne, Raw;
    if capsules == [] {
      assert [] + unfinished == unfinished;
    } else {
      var later := RawAll(capsules[1..]) + unfinished;
      assert RawAll(capsules) + unfinished == Raw(capsules[0]) + later;
      RawReadsBackExactly(capsules[0], later);
      CapsuleRoundTrip(capsules[1..], unfinished);
      assert [capsules[0]] + capsules[1..] == capsules;
    }
  }

  /** Both together: however the bytes of a list of capsules are cut into body
      chunks, what is read is that list, with nothing left over. */
  lemma AnyCuttingDeliversTheList(capsules: seq<Capsule>, chunks: seq<seq<Byte>>)
    requires forall c | c in capsules :: Representable(c)
    requires Flatten(chunks) == RawAll(capsules)
    ensures Feed([], chunks) == Contents(capsules, [])
  {
    hide ParseAll, ParseOne, RawAll, Flatten, Feed;
    NothingIsIncomplete();
    ChunkingIsIrrelevant([], chunks);
    CapsuleRoundTrip(capsules, []);
    assert [] + Flatten(chunks) == RawAll(capsules) + [];
  }

  // ----- The capsules this side builds -----

  type U16 = p: int | 0 <= p < 0x1_0000
  type U32 = p: int | 0 <= p < 0x1_0000_0000
  type Octets4 = s: seq<Byte> | |s| == 4 witness [0, 0, 0, 0]
  type Octets16 = s: seq<Byte> | |s| == 16 witness seq(16, _ => 0)

  datatype SocketAddr =
    | V4(ip4: Octets4, port: U16)
    | V6(ip6: Octets16, port: U16, flowinfo: U32, scopeId: U32)

  function PortBytes(port: U16): (s: seq<Byte>)
    ensures |s| == 2
  {
    [port / 0x100, port % 0x100]
  }

  function AddressBytes(addr: Option<SocketAddr>): seq<Byte>
  {
    match addr
    case None => [0]
    case Some(V4(ip, port)) => [4] + ip + PortBytes(port)
    case Some(V6(ip, port, _, _)) => [6] + ip + PortBytes(port)
  }

  function AssignCapsule(id: U64, addr: Option<SocketAddr>): (c: Capsule)
    ensures |c.payload| <= 27
  {
    Capsule(COMPRESSION_ASSIGN, Encode(id) + AddressBytes(addr))
  }

  function CloseCapsule(id: U64): (c: Capsule)
    ensures |c.payload| <= 8
  {
    Capsule(COMPRESSION_ASSIGN_CLOSE, Encode(id))
  }

  /** `build_raw_capsule`, field by field into one buffer. */
  method BuildRawCapsule(kind: U64, payload: Payload) returns (buf: seq<Byte>)
    ensures buf == Raw(Capsule(kind, payload))
  {
    buf := [];
    var field := EncodeVarInt(kind);
    buf := buf + field;
    field := EncodeVarInt(|payload|);
    buf := buf + field;
    buf := buf + payload;
    assert buf == Encode(kind) + (Encode(|payload|) + payload);
  }

  method BuildCompressionAssign(id: U64, addr: Option<SocketAddr>) returns (buf: seq<Byte>)
    ensures buf == Raw(AssignCapsule(id, addr))
  {
    var payload := EncodeVarInt(id);
    match addr {
      case None =>
        payload := payload + [0];
      case Some(V4(ip, port)) =>
        payload := payload + [4];
        payload := payload + ip;
        payload := payload + PortBytes(port);
      case Some(V6(ip, port, _, _)) =>
        payload := payload + [6];
        payload := payload + ip;
        payload := payload + PortBytes(port);
    }
    assert payload == Encode(id) + AddressBytes(addr);
    buf := BuildRawCapsule(COMPRESSION_ASSIGN, payload);
  }

  /** What of an address reaches the wire: not an IPv6 flow label or scope. */
  ghost predicate SameEndpoint(a: Option<SocketAddr>, b: Option<SocketAddr>)
  {
    match (a, b)
    case (None, None) => true
    case (Some(V4(ip, port)), Some(V4(ip', port'))) => ip == ip' && port == port'
    case (Some(V6(ip, port, _, _)), Some(V6(ip', port', _, _))) => ip == ip' && port == port'
    case _ => false
  }

  lemma AddressBytesSeparate(a: Option<SocketAddr>, b: Option<SocketAddr>)
    ensures AddressBytes(a) == AddressBytes(b) <==> SameEndpoint(a, b)
  {
    if AddressBytes(a) == AddressBytes(b) {
      var s, t := AddressBytes(a), AddressBytes(b);
      assert s[0] == t[0] && |s| == |t|;
      if a.Some? {
        var n := if a.value.V4? then 4 else 16;
        assert s[1..n + 1] == (if a.value.V4? then a.value.ip4 else a.value.ip6);
        assert t[1..n + 1] == (if b.value.V4? then b.value.ip4 else b.value.ip6);
        assert s[n + 1] == a.value.port / 0x100 && s[n + 2] == a.value.port % 0x100;
        assert t[n + 1] == b.value.port / 0x100 && t[n + 2] == b.value.port % 0x100;
      }
    }
  }

  /** Two ASSIGN capsules are the same bytes exactly when they name the same
      endpoint and their ids share an encoding: equal, or both at least 2^22 and
      a multiple of 2^62 apart. */
  lemma AssignBytesSeparate(id: U64, addr: Option<SocketAddr>, id': U64, addr': Option<SocketAddr>)
    ensures Raw(AssignCapsule(id, addr)) == Raw(AssignCapsule(id', addr')) <==>
            SameEndpoint(addr, addr') &&
            (id == id' || (id >= 0x40_0000 && id' >= 0x40_0000 && id % VARINT_LIMIT == id' % VARINT_LIMIT))
  {
    hide Encode, Decode, AddressBytes, Raw, ParseOne;
    var c, c' := AssignCapsule(id, addr), AssignCapsule(id', addr');
    RawReadsBackExactly(c, []);
    RawReadsBackExactly(c', []);
    assert Raw(c) + [] == Raw(c) && Raw(c') + [] == Raw(c');
    assert Raw(c) == Raw(c') <==> c.payload == c'.payload;
    EncodeCollides(id, id');
    AddressBytesSeparate(addr, addr');
    if c.payload == c'.payload {
      RoundTrip(id, AddressBytes(addr));
      RoundTrip(id', AddressBytes(addr'));
      assert AddressBytes(addr) == AddressBytes(addr');
      var n := |c.payload| - |AddressBytes(addr)|;
      assert Encode(id) == c.payload[..n] == c'.payload[..n] == Encode(id');
    }
  }

  /** A CLOSE written by one side withdraws exactly that id, from both tables, on
      the other. */
  lemma CloseIsUnderstood(id: U64)
    requires id < VARINT_LIMIT
    ensures ParseAll(Raw(CloseCapsule(id))) == Contents([CloseCapsule(id)], [])
    ensures RequestsOf(CloseCapsule(id)) == [UnregisterFromUdpToQuic(id), UnregisterFromQuicToUdp(id)]
  {
    hide Encode, Decode, Raw;
    RoundTrip(id, []);
    assert Encode(id) + [] == Encode(id);
    var c := CloseCapsule(id);
    NothingIsIncomplete();
    CapsuleRoundTrip([c], []);
    assert RawAll([c]) == Raw(c) + RawAll([]);
    assert RawAll([c]) + [] == Raw(c);
  }

  // ----- In figures -----

  /** Only a CLOSE, type 0x13, whose payload starts with a complete id asks anything:
      that this id leaves the table from UDP to QUIC and then the one from QUIC to UDP. */
  lemma OnlyAReadableCloseAsks(c: Capsule)
    ensures RequestsOf(c) != [] <==> c.kind == 0x13 && Decode(c.payload).Some?
    ensures RequestsOf(c) != [] ==>
              var id := Decode(c.payload).value.value;
              RequestsOf(c) == [UnregisterFromUdpToQuic(id), UnregisterFromQuicToUdp(id)]
  {}

  /** The requests of a stream are those of its readable CLOSE capsules, in order, and
      no capsule of another type adds any. */
  lemma {:induction false} OtherTypesAskNothing(capsules: seq<Capsule>)
    ensures AllRequests(capsules) == AllRequests(Closes(capsules))
    ensures (forall c | c in capsules :: c.kind != 0x13) ==> AllRequests(capsules) == []
    ensures |AllRequests(capsules)| == 2 * |Closes(capsules)|
  {
    hide RequestsOf;
    if capsules != [] {
      OnlyAReadableCloseAsks(capsules[0]);
      OtherTypesAskNothing(capsules[1..]);
      assert forall c | c in capsules[1..] :: c in capsules;
      var later := Closes(capsules[1..]);
      assert ([capsules[0]] + later)[1..] == later;
      assert [] + AllRequests(later) == AllRequests(later) && [] + later == later;
    }
  }

  function Closes(capsules: seq<Capsule>): seq<Capsule>
  {
    if capsules == [] then []
    else
      (if capsules[0].kind == 0x13 && Decode(capsules[0].payload).Some? then [capsules[0]] else [])
      + Closes(capsules[1..])
  }

  lemma SmallEncode(v: U64)
    requires v < 0x40
    ensures Encode(v) == [v]
  {
    Pow256Values();
    assert v / 1 == v && v % 0x40 == v;
    assert LowBytes(v, 0) == [];
  }

  /** The bytes of the capsules this side builds, for ids of one byte: type, length, id,
      IP version, octets and port, most significant byte first. */
  lemma OnTheWire(id: U64, ip4: Octets4, ip6: Octets16, port: U16, flowinfo: U32, scopeId: U32)
    requires id < 0x40
    ensures Raw(AssignCapsule(id, None)) == [0x11, 2, id, 0]
    ensures Raw(AssignCapsule(id, Some(V4(ip4, port)))) == [0x11, 8, id, 4] + ip4 + [port / 0x100, port % 0x100]
    ensures Raw(AssignCapsule(id, Some(V6(ip6, port, flowinfo, scopeId)))) ==
            [0x11, 20, id, 6] + ip6 + [port / 0x100, port % 0x100]
    ensures Raw(CloseCapsule(id)) == [0x13, 1, id]
  {
    hide Raw, AssignCapsule, Encode;
    PlainOnTheWire(id);
    AddressOnTheWire(id, 4, ip4, port, Some(V4(ip4, port)));
    AddressOnTheWire(id, 6, ip6, port, Some(V6(ip6, port, flowinfo, scopeId)));
  }

  lemma PlainOnTheWire(id: U64)
    requires id < 0x40
    ensures Raw(AssignCapsule(id, None)) == [0x11, 2, id, 0] && Raw(CloseCapsule(id)) == [0x13, 1, id]
  {
    SmallEncode(id);
    hide Encode, Raw;
    assert AssignCapsule(id, None) == Capsule(0x11, [id, 0]) && CloseCapsule(id) == Capsule(0x13, [id]);
    hide AssignCapsule, CloseCapsule;
    SmallRaw(Capsule(0x11, [id, 0]));
    SmallRaw(Capsule(0x13, [id]));
  }

  lemma AddressOnTheWire(id: U64, version: Byte, ip: seq<Byte>, port: U16, addr: Option<SocketAddr>)
    requires id < 0x40 && |ip| <= 16 && AddressBytes(addr) == [version] + ip + [port / 0x100, port % 0x100]
    ensures Raw(AssignCapsule(id, addr)) == [0x11, 4 + |ip|, id, version] + ip + [port / 0x100, port % 0x100]
  {
    SmallEncode(id);
    hide Encode, Raw, AddressBytes;
    var tail := [port / 0x100, port % 0x100];
    assert AssignCapsule(id, addr) == Capsule(0x11, [id] + ([version] + ip + tail));
    hide AssignCapsule;
    SmallRaw(Capsule(0x11, [id] + ([version] + ip + tail)));
  }

  lemma SmallRaw(c: Capsule)
    requires c.kind < 0x40 && |c.payload| < 0x40
    ensures Raw(c) == [c.kind, |c.payload|] + c.payload
  {
    hide Encode;
    SmallEncode(c.kind);
    SmallEncode(|c.payload|);
  }

  /** And read: type, length, payload. */
  lemma OffTheWire(kind: Byte, payload: seq<Byte>, rest: seq<Byte>)
    requires kind < 0x40 && |payload| < 0x40
    ensures ParseOne([kind, |payload|] + payload + rest) == Complete(Capsule(kind, payload), rest)
  {
    hide Decode;
    var body := payload + rest;
    FourForms([kind], [|payload|] + body);
    FourForms([|payload|], body);
    assert [kind, |payload|] + payload + rest == [kind] + ([|payload|] + body);
    assert body[..|payload|] == payload && body[|payload|..] == rest;
  }
}
