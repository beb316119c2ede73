/**
 QUIC variable-length integers (section 16 of RFC 9000) as the MASQUE channel
 writes and reads them.

 Bytes are integers below 256 and `u64` values are a subset type, so every
 assignment to a `U64` variable is a proof that the source's arithmetic does not
 overflow.  Shifts and masks by whole bytes are division and remainder; the two
 halves joined by `|` in the first byte never share a bit, so that `|` is a sum.
 */
module VarInt {
  import opened Arithmetic
  import opened Wrappers

  type Byte = b: int | 0 <= b < 0x100
  type U64 = v: int | 0 <= v < 0x1_0000_0000_0000_0000

  /** Two bits of the first byte hold the width, which leaves 62 for the value. */
  const VARINT_LIMIT: nat := 0x4000_0000_0000_0000

  datatype Decoded = Decoded(value: U64, rest: seq<Byte>)

  function Pow256(n: nat): (p: nat)
    ensures p > 0
  {
    if n == 0 then 1 else 0x100 * Pow256(n - 1)
  }

  /** The number a byte string spells, most significant byte first. */
  function BigEndian(s: seq<Byte>): nat
  {
    if s == [] then 0 else BigEndian(s[..|s| - 1]) * 0x100 + s[|s| - 1]
  }

  /** The low `n` bytes of `v`, most significant first. */
  function LowBytes(v: nat, n: nat): (s: seq<Byte>)
    ensures |s| == n
  {
    if n == 0 then [] else LowBytes(v / 0x100, n - 1) + [v % 0x100]
  }

  /** How many bytes a first byte announces. */
  function AnnouncedWidth(first: Byte): (n: nat)
    ensures n in {1, 2, 4, 8}
  {
    var prefix := first / 0x40;
    if prefix == 0 then 1 else if prefix == 1 then 2 else if prefix == 2 then 4 else 8
  }

  /** How many bytes the encoder spends on `v`. Eight from 2^22 upward, although
      four would do until 2^30. */
  function EncodedWidth(v: U64): (n: nat)
    ensures n in {1, 2, 4, 8}
  {
    if v < 0x40 then 1 else if v < 0x4000 then 2 else if v < 0x40_0000 then 4 else 8
  }

  /** The two-bit prefix that announces a width. */
  function PrefixOf(width: nat): (prefix: nat)
    requires width in {1, 2, 4, 8}
    ensures prefix < 4
  {
    if width == 1 then 0 else if width == 2 then 1 else if width == 4 then 2 else 3
  }

  /** What decoding means: the announced number of bytes, read as one big-endian
      number with the prefix taken off. */
  function Decode(data: seq<Byte>): (r: Option<Decoded>)
    ensures r.Some? ==> 0 < |data| - |r.value.rest| && r.value.rest == data[|data| - |r.value.rest|..]
  {
    if data == [] then None
    else
      var n := AnnouncedWidth(data[0]);
      if |data| < n then None
      else
        BigEndianBound(data[0] % 0x40, data[1..n]);
        Pow256Values();
        Some(Decoded(BigEndian([data[0] % 0x40] + data[1..n]), data[n..]))
  }

  /** What encoding means: a prefix, six bits of the value and its low bytes. */
  function Encode(v: U64): (s: seq<Byte>)
    ensures |s| == EncodedWidth(v)
  {
    var n := EncodedWidth(v);
    var top := PrefixOf(n) * 0x40 + (v / Pow256(n - 1)) % 0x40;
    [top] + LowBytes(v, n - 1)
  }

  lemma Pow256Values()
    ensures Pow256(0) == 1
    ensures Pow256(1) == 0x100
    ensures Pow256(2) == 0x1_0000
    ensures Pow256(3) == 0x100_0000
    ensures Pow256(7) == 0x100_0000_0000_0000
  {
    assert Pow256(2) == 0x1_0000;
    assert Pow256(3) == 0x100_0000;
    assert Pow256(4) == 0x1_0000_0000;
    assert Pow256(5) == 0x100_0000_0000;
    assert Pow256(6) == 0x1_0000_0000_0000;
  }

  lemma BigEndianPush(s: seq<Byte>, b: Byte)
    ensures BigEndian(s + [b]) == BigEndian(s) * 0x100 + b
  {
    assert (s + [b])[..|s|] == s;
  }

  lemma {:induction false} BigEndianBound(first: Byte, tail: seq<Byte>)
    ensures BigEndian([first] + tail) < (first + 1) * Pow256(|tail|)
  {
    if tail == [] {
      assert [first] == [] + [first];
      BigEndianPush([], first);
    } else {
      var front := tail[..|tail| - 1];
      assert [first] + tail == ([first] + front) + [tail[|front|]];
      BigEndianPush([first] + front, tail[|front|]);
      BigEndianBound(first, front);
      AppendByteBound(first + 1, BigEndian([first] + front), tail[|front|], Pow256(|front|));
    }
  }

  lemma AppendByteBound(x: nat, a: nat, b: Byte, p: nat)
    requires a < x * p
    ensures a * 0x100 + b < x * (0x100 * p)
  {
    MultiplyAssociates(x, p, 0x100);
  }

  lemma PrefixAnnounces(width: nat, low: nat)
    requires width in {1, 2, 4, 8} && low < 0x40
    ensures AnnouncedWidth(PrefixOf(width) * 0x40 + low) == width
    ensures (PrefixOf(width) * 0x40 + low) % 0x40 == low
  {}

  /** Peeling a byte off before reducing is the same as reducing and then peeling. */
  lemma PeelByte(v: nat, p: nat)
    requires p > 0
    ensures ((v / 0x100) % p) * 0x100 + v % 0x100 == v % (0x100 * p)
  {
    var q, r := v / 0x100, v % 0x100;
    var k, t := q / p, q % p;
    assert q == p * k + t;
    assert v == k * (0x100 * p) + (t * 0x100 + r) by {
      assert v == q * 0x100 + r;
      assert (p * k) * 0x100 == k * (0x100 * p);
    }
    RemainderIsUnique(v, 0x100 * p, k, t * 0x100 + r);
  }

  /** Reading back the low bytes of `v` behind some leading digit. */
  lemma {:induction false} ReadLowBytes(lead: Byte, v: nat, n: nat)
    ensures BigEndian([lead] + LowBytes(v, n)) == lead * Pow256(n) + v % Pow256(n)
  {
    hide BigEndian, Pow256;
    if n == 0 {
      ReadNoBytes(lead, v);
    } else {
      var front := [lead] + LowBytes(v / 0x100, n - 1);
      assert [lead] + LowBytes(v, n) == front + [v % 0x100];
      BigEndianPush(front, v % 0x100);
      ReadLowBytes(lead, v / 0x100, n - 1);
      Pow256Step(n);
      AppendByteArithmetic(lead, v, Pow256(n - 1), Pow256(n), BigEndian(front));
    }
  }

  lemma ReadNoBytes(lead: Byte, v: nat)
    ensures BigEndian([lead] + LowBytes(v, 0)) == lead * Pow256(0) + v % Pow256(0)
  {
    Pow256Values();
    NothingRead(v);
    hide LowBytes, BigEndian, Pow256;
    BigEndianPush([], lead);
    assert [lead] + LowBytes(v, 0) == [] + [lead];
  }

  lemma NothingRead(v: nat)
    ensures LowBytes(v, 0) == [] && BigEndian([]) == 0
  {}

  lemma Pow256Step(n: nat)
    requires n > 0
    ensures Pow256(n) == 0x100 * Pow256(n - 1)
  {}

  lemma AppendByteArithmetic(lead: nat, v: nat, p: nat, q: nat, front: nat)
    requires p > 0 && q == 0x100 * p
    requires front == lead * p + (v / 0x100) % p
    ensures front * 0x100 + v % 0x100 == lead * q + v % q
  {
    PeelByte(v, p);
    MultiplyAssociates(lead, p, 0x100);
  }

  /** The loop of `decode_var_int`: no intermediate value leaves `u64`. */
  method DecodeVarInt(data: seq<Byte>) returns (r: Option<Decoded>)
    ensures r == Decode(data)
  {
    if |data| == 0 {
      return None;
    }
    var v: U64 := data[0];
    var prefix := v / 0x40;
    var length := if prefix == 0 then 1 else if prefix == 1 then 2 else if prefix == 2 then 4 else 8;
    if |data| < length {
      return None;
    }
    v := v % 0x40;
    var i := 1;
    while i < length
      invariant 1 <= i <= length
      invariant v == BigEndian([data[0] % 0x40] + data[1..i])
    {
      ReadsOneMore(data[0] % 0x40, data, i);
      WithinSixtyTwoBits(data[0] % 0x40, data[1..i + 1]);
      v := v * 0x100 + data[i];
      i := i + 1;
    }
    r := Some(Decoded(v, data[length..]));
  }

  lemma ReadsOneMore(first: Byte, data: seq<Byte>, i: nat)
    requires 1 <= i < |data|
    ensures BigEndian([first] + data[1..i + 1]) == BigEndian([first] + data[1..i]) * 0x100 + data[i]
  {
    hide BigEndian;
    assert data[1..i + 1] == data[1..i] + [data[i]];
    assert [first] + data[1..i + 1] == ([first] + data[1..i]) + [data[i]];
    BigEndianPush([first] + data[1..i], data[i]);
  }

  lemma WithinSixtyTwoBits(first: Byte, tail: seq<Byte>)
    requires first < 0x40 && |tail| <= 7
    ensures BigEndian([first] + tail) < VARINT_LIMIT
  {
    BigEndianBound(first, tail);
    PowMonotone(|tail|, 7);
    Pow256Values();
    SmallProduct(first + 1, Pow256(|tail|));
  }

  lemma SmallProduct(a: nat, p: nat)
    requires a <= 0x40 && p <= 0x100_0000_0000_0000
    ensures a * p <= VARINT_LIMIT
  {
    Monotone(a, 0x40, p);
    Monotone(0x40, a, p);
  }

  lemma {:induction false} PowMonotone(m: nat, n: nat)
    requires m <= n
    ensures Pow256(m) <= Pow256(n)
    decreases n - m
  {
    if m < n {
      PowMonotone(m + 1, n);
    }
  }

  /** The loop of `encode_var_int`: bytes pushed least significant first, the
      prefixed byte last, and the whole reversed. */
  method EncodeVarInt(value: U64) returns (buf: seq<Byte>)
    ensures buf == Encode(value)
  {
    var v: U64 := value;
    var length := if v < 0x40 then 1 else if v < 0x4000 then 2 else if v < 0x40_0000 then 4 else 8;
    var prefix := if length == 1 then 0 else if length == 2 then 1 else if length == 4 then 2 else 3;
    buf := [];
    for i := 1 to length
      invariant |buf| == i - 1
      invariant v == value / Pow256(i - 1)
      invariant Reversed(buf) == LowBytes(value, i - 1)
    {
      ReversedPush(buf, v % 0x100);
      LowBytesGrow(value, i - 1);
      buf := buf + [v % 0x100];
      SplitQuotient(value, Pow256(i - 1), 0x100);
      v := v / 0x100;
    }
    var top: Byte := prefix * 0x40 + v % 0x40;
    ReversedPush(buf, top);
    buf := buf + [top];
    buf := Reversed(buf);
  }

  function Reversed(s: seq<Byte>): (r: seq<Byte>)
    ensures |r| == |s|
    ensures forall i | 0 <= i < |s| :: r[i] == s[|s| - 1 - i]
  {
    if s == [] then [] else Reversed(s[1..]) + [s[0]]
  }

  lemma ReversedPush(s: seq<Byte>, b: Byte)
    ensures Reversed(s + [b]) == [b] + Reversed(s)
  {}

  lemma {:induction false} LowBytesGrow(v: nat, n: nat)
    ensures LowBytes(v, n + 1) == [(v / Pow256(n)) % 0x100] + LowBytes(v, n)
  {
    if n > 0 {
      LowBytesGrow(v / 0x100, n - 1);
      DivideByteFirst(v, Pow256(n - 1));
    }
  }

  lemma DivideByteFirst(v: nat, p: nat)
    requires p > 0
    ensures (v / 0x100) / p == v / (0x100 * p)
  {
    var q, r := v / 0x100, v % 0x100;
    var k, t := q / p, q % p;
    assert v == k * (0x100 * p) + (t * 0x100 + r) by {
      assert q == p * k + t;
      assert (p * k) * 0x100 == k * (0x100 * p);
    }
    RemainderIsUnique(v, 0x100 * p, k, t * 0x100 + r);
  }

  /** Decoding undoes encoding, whatever follows, up to the 62 bits there are. */
  lemma RoundTrip(v: U64, suffix: seq<Byte>)
    ensures Decode(Encode(v) + suffix) == Some(Decoded(v % VARINT_LIMIT, suffix))
  {
    var n := EncodedWidth(v);
    var p := Pow256(n - 1);
    var low := (v / p) % 0x40;
    var s := Encode(v) + suffix;
    PrefixAnnounces(n, low);
    assert s[1..n] == LowBytes(v, n - 1);
    assert s[n..] == suffix;
    ReadLowBytes(low, v, n - 1);
    TopAndLowBytes(v);
  }

  lemma TopAndLowBytes(v: U64)
    ensures var p := Pow256(EncodedWidth(v) - 1);
            ((v / p) % 0x40) * p + v % p == v % VARINT_LIMIT
  {
    var p := Pow256(EncodedWidth(v) - 1);
    SplitQuotient(v, p, 0x40);
    Pow256Values();
    assert v % (0x40 * p) == v % VARINT_LIMIT;
  }

  /** The value survives exactly when it fits the 62 bits. */
  lemma RoundTripIsExactBelowLimit(v: U64, suffix: seq<Byte>)
    ensures Decode(Encode(v) + suffix) == Some(Decoded(v, suffix)) <==> v < VARINT_LIMIT
  {
    hide Decode, Encode;
    RoundTrip(v, suffix);
  }

  /** An encoding cut short anywhere is incomplete, never a different number. */
  lemma TruncationIsIncomplete(v: U64, cut: nat)
    requires cut < |Encode(v)|
    ensures Decode(Encode(v)[..cut]) == None
  {
    if cut > 0 {
      assert Encode(v)[..cut][0] == Encode(v)[0];
      assert Encode(v)[0] % 0x40 < 0x40;
    }
  }

  /** More input never changes a number that was already complete. */
  lemma DecodeIsStable(data: seq<Byte>, more: seq<Byte>)
    requires Decode(data).Some?
    ensures Decode(data + more) == Some(Decoded(Decode(data).value.value, Decode(data).value.rest + more))
  {
    var n := AnnouncedWidth(data[0]);
    assert (data + more)[1..n] == data[1..n];
    assert (data + more)[n..] == data[n..] + more;
  }

  /** Two values share an encoding exactly when they are equal, or are both in
      the eight-byte range and differ by a multiple of 2^62. */
  lemma EncodeCollides(v: U64, w: U64)
    ensures Encode(v) == Encode(w) <==>
            v == w || (v >= 0x40_0000 && w >= 0x40_0000 && v % VARINT_LIMIT == w % VARINT_LIMIT)
  {
    hide Encode;
    if Encode(v) == Encode(w) {
      SameBytesSameResidue(v, w);
    } else if v >= 0x40_0000 && w >= 0x40_0000 && v % VARINT_LIMIT == w % VARINT_LIMIT {
      SameResidueSameBytes(v, w);
    }
  }

  lemma SameBytesSameResidue(v: U64, w: U64)
    requires Encode(v) == Encode(w)
    ensures v % VARINT_LIMIT == w % VARINT_LIMIT && EncodedWidth(v) == EncodedWidth(w)
  {
    assert EncodedWidth(v) == |Encode(v)| == EncodedWidth(w);
    RoundTrip(v, []);
    RoundTrip(w, []);
  }

  lemma SameResidueSameBytes(v: U64, w: U64)
    requires v >= 0x40_0000 && w >= 0x40_0000 && v % VARINT_LIMIT == w % VARINT_LIMIT
    ensures Encode(v) == Encode(w)
  {
    Pow256Values();
    var p := Pow256(7);
    SplitQuotient(v, p, 0x40);
    SplitQuotient(w, p, 0x40);
    RemainderIsUnique(v % VARINT_LIMIT, p, (v / p) % 0x40, v % p);
    RemainderIsUnique(w % VARINT_LIMIT, p, (w / p) % 0x40, w % p);
    LowBytesDependOnResidue(v, w, 7);
  }

  lemma {:induction false} LowBytesDependOnResidue(v: nat, w: nat, n: nat)
    requires v % Pow256(n) == w % Pow256(n)
    ensures LowBytes(v, n) == LowBytes(w, n)
  {
    if n > 0 {
      var p := Pow256(n - 1);
      PeelByte(v, p);
      PeelByte(w, p);
      LowBytesDependOnResidue(v / 0x100, w / 0x100, n - 1);
    }
  }

  /** The encoder is shortest-form everywhere but on [2^22, 2^30): there four
      bytes would carry the value and it spends eight. */
  lemma ShortestFormExactly(v: U64)
    requires v < VARINT_LIMIT
    ensures (forall s: seq<Byte> | Decode(s) == Some(Decoded(v, [])) :: |Encode(v)| <= |s|)
            <==> v < 0x40_0000 || v >= 0x4000_0000
  {
    if v < 0x40_0000 || v >= 0x4000_0000 {
      forall s: seq<Byte> | Decode(s) == Some(Decoded(v, []))
        ensures |Encode(v)| <= |s|
      {
        var n := AnnouncedWidth(s[0]);
        BigEndianBound(s[0] % 0x40, s[1..n]);
        Pow256Values();
        assert v < 0x40 * Pow256(n - 1) by {
          assert (s[0] % 0x40 + 1) * Pow256(n - 1) <= 0x40 * Pow256(n - 1);
        }
      }
    } else {
      var short := FourBytes(v);
      assert |short| < |Encode(v)|;
    }
  }

  /** The four-byte form the encoder passes over. */
  function FourBytes(v: U64): (s: seq<Byte>)
    requires v < 0x4000_0000
    ensures |s| == 4 && Decode(s) == Some(Decoded(v, []))
  {
    Pow256Values();
    var low := (v / Pow256(3)) % 0x40;
    var s := [0x80 + low] + LowBytes(v, 3);
    assert s[0] % 0x40 == low && AnnouncedWidth(s[0]) == 4;
    assert s[1..4] == LowBytes(v, 3) && s[4..] == [];
    ReadLowBytes(low, v, 3);
    SplitQuotient(v, Pow256(3), 0x40);
    s
  }

  // ----- In figures -----

  lemma BigEndianOfTwo(s: seq<Byte>, n: nat)
    requires 0 < n <= |s|
    ensures BigEndian(s[..n]) == BigEndian(s[..n - 1]) * 0x100 + s[n - 1]
  {
    assert s[..n][..n - 1] == s[..n - 1];
  }

  ghost predicate Reads(data: seq<Byte>, value: int, rest: seq<Byte>)
  {
    Decode(data).Some? && Decode(data).value.value == value && Decode(data).value.rest == rest
  }

  /** The four forms of section 16, written out: the two upper bits of the first byte
      say one, two, four or eight bytes, and what is left is big-endian. */
  lemma FourForms(b: seq<Byte>, rest: seq<Byte>)
    ensures |b| == 1 && b[0] < 0x40 ==> Reads(b + rest, b[0], rest)
    ensures |b| == 2 && 0x40 <= b[0] < 0x80 ==> Reads(b + rest, (b[0] as int - 0x40) * 0x100 + b[1], rest)
    ensures |b| == 4 && 0x80 <= b[0] < 0xC0 ==>
              Reads(b + rest, (b[0] as int - 0x80) * 0x100_0000 + b[1] as int * 0x1_0000 + b[2] as int * 0x100 + b[3], rest)
    ensures |b| == 8 && 0xC0 <= b[0] ==>
              Reads(b + rest, (b[0] as int - 0xC0) * 0x100_0000_0000_0000 + b[1] as int * 0x1_0000_0000_0000
                              + b[2] as int * 0x100_0000_0000 + b[3] as int * 0x1_0000_0000
                              + b[4] as int * 0x100_0000 + b[5] as int * 0x1_0000 + b[6] as int * 0x100 + b[7], rest)
  {
    if b != [] && |b| == AnnouncedWidth(b[0]) {
      var n := |b|;
      var s := [b[0] % 0x40] + b[1..];
      assert (b + rest)[0] == b[0] && (b + rest)[1..n] == b[1..] && (b + rest)[n..] == rest;
      assert Reads(b + rest, BigEndian(s), rest);
      hide Decode, BigEndian;
      ReadsThrough(s);
      assert forall i | 1 <= i < n :: s[i] == b[i];
    }
  }

  lemma ReadsThrough(s: seq<Byte>)
    requires |s| in {1, 2, 4, 8}
    ensures |s| == 1 ==> BigEndian(s) == s[0]
    ensures |s| == 2 ==> BigEndian(s) == s[0] as int * 0x100 + s[1]
    ensures |s| == 4 ==>
              BigEndian(s) == s[0] as int * 0x100_0000 + s[1] as int * 0x1_0000 + s[2] as int * 0x100 + s[3]
    ensures |s| == 8 ==>
              BigEndian(s) == s[0] as int * 0x100_0000_0000_0000 + s[1] as int * 0x1_0000_0000_0000
                              + s[2] as int * 0x100_0000_0000 + s[3] as int * 0x1_0000_0000
                              + s[4] as int * 0x100_0000 + s[5] as int * 0x1_0000 + s[6] as int * 0x100 + s[7]
  {
    NothingRead(0);
    hide BigEndian;
    BigEndianOfTwo(s, 1);
    assert s[..0] == [] && s[..|s|] == s;
    if |s| >= 2 {
      BigEndianOfTwo(s, 2);
    }
    if |s| >= 4 {
      BigEndianOfTwo(s, 3);
      BigEndianOfTwo(s, 4);
    }
    if |s| >= 8 {
      BigEndianOfTwo(s, 5);
      BigEndianOfTwo(s, 6);
      BigEndianOfTwo(s, 7);
      BigEndianOfTwo(s, 8);
    }
  }

  /** The examples of appendix A.1 of RFC 9000. */
  lemma RfcExamples()
    ensures Reads([0xC2, 0x19, 0x7C, 0x5E, 0xFF, 0x14, 0xE8, 0x8C], 151_288_809_941_952_652, [])
    ensures Reads([0x9D, 0x7F, 0x3E, 0x7D], 494_878_333, [])
    ensures Reads([0x7B, 0xBD], 15_293, [])
    ensures Reads([0x25], 37, [])
    ensures Reads([0x40, 0x25], 37, [])
  {
    hide Reads;
    var eight: seq<Byte> := [0xC2, 0x19, 0x7C, 0x5E, 0xFF, 0x14, 0xE8, 0x8C];
    var four: seq<Byte> := [0x9D, 0x7F, 0x3E, 0x7D];
    FourForms(eight, []);
    FourForms(four, []);
    FourForms([0x7B, 0xBD], []);
    FourForms([0x25], []);
    FourForms([0x40, 0x25], []);
    assert eight + [] == eight && four + [] == four;
    assert [0x7B, 0xBD] + [] == [0x7B, 0xBD] && [0x25] + [] == [0x25] && [0x40, 0x25] + [] == [0x40, 0x25];
  }
}
