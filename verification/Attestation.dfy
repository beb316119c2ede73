/**
 The signed statement about a video key: the canonical string, signing it and
 checking it.

 Cryptography is ideal here: `digest` is whatever hash of a public key the
 Endpoint ID is made from, and a signature is the pair of key and message it was
 made over, so verifying is comparing.  Reading a date is the argument `parse`.
 */
module Attestation {
  import opened Wrappers
  import opened VarInt

  type Jwk = nat
  type Time = int
  datatype Signature = Signature(key: Jwk, message: string)

  const DOMAIN := "isekai-p2p-cert-attestation-v1"
  const ENDPOINT_ID_PREFIX := "ep:"

  // ----- Endpoint IDs -----

  /** `char::from_digit(n, 16)`. */
  function HexDigit(n: nat): (c: char)
    requires n < 16
    ensures '0' <= c <= '9' || 'a' <= c <= 'f'
  {
    if n < 10 then ('0' as int + n) as char else ('a' as int + n - 10) as char
  }

  function Hex(bytes: seq<Byte>): (s: string)
    ensures |s| == 2 * |bytes|
    ensures forall i | 0 <= i < |bytes| :: s[2 * i] == HexDigit(bytes[i] / 16) && s[2 * i + 1] == HexDigit(bytes[i] % 16)
  {
    if bytes == [] then ""
    else
      var last := bytes[|bytes| - 1];
      Hex(bytes[..|bytes| - 1]) + [HexDigit(last / 16)] + [HexDigit(last % 16)]
  }

  method HexEncode(bytes: seq<Byte>) returns (out: string)
    ensures out == Hex(bytes)
  {
    out := "";
    assert bytes[..0] == [];
    for i := 0 to |bytes|
      invariant out == Hex(bytes[..i])
    {
      assert bytes[..i + 1][..i] == bytes[..i];
      out := out + [HexDigit(bytes[i] / 16)];
      out := out + [HexDigit(bytes[i] % 16)];
    }
    assert bytes[..|bytes|] == bytes;
  }

  function EndpointId(jwk: Jwk, digest: Jwk -> seq<Byte>): string
  {
    ENDPOINT_ID_PREFIX + Hex(digest(jwk))
  }

  /** Two keys share an Endpoint ID exactly when their hashes collide. */
  lemma EndpointIdsTellDigestsApart(a: Jwk, b: Jwk, digest: Jwk -> seq<Byte>)
    ensures EndpointId(a, digest) == EndpointId(b, digest) <==> digest(a) == digest(b)
  {
    var s, t := digest(a), digest(b);
    if EndpointId(a, digest) == EndpointId(b, digest) {
      assert Hex(s) == EndpointId(a, digest)[3..] == Hex(t);
      forall i | 0 <= i < |s|
        ensures s[i] == t[i]
      {
        assert Hex(s)[2 * i] == Hex(t)[2 * i] && Hex(s)[2 * i + 1] == Hex(t)[2 * i + 1];
        SameDigit(s[i] / 16, t[i] / 16);
        SameDigit(s[i] % 16, t[i] % 16);
      }
    }
  }

  lemma SameDigit(m: nat, n: nat)
    requires m < 16 && n < 16 && HexDigit(m) == HexDigit(n)
    ensures m == n
  {}

  ghost predicate OneLine(s: string)
  {
    '\n' !in s
  }

  lemma EndpointIdIsOneLine(jwk: Jwk, digest: Jwk -> seq<Byte>)
    ensures OneLine(EndpointId(jwk, digest))
  {
    var h := Hex(digest(jwk));
    forall i | 0 <= i < |h|
      ensures h[i] != '\n'
    {
      assert h[2 * (i / 2)] != '\n' && h[2 * (i / 2) + 1] != '\n';
    }
    assert forall c | c in ENDPOINT_ID_PREFIX :: c != '\n';
  }

  // ----- The statement -----

  datatype Statement = Statement(jwk: Jwk, expiresAt: string, signature: Signature)
  datatype Verdict = Believed | WrongEndpoint | BadSignature | UnreadableExpiry | Expired

  function CanonicalString(endpointId: string, hostname: string, spki: string, expiresAt: string): string
  {
    DOMAIN + "\n" + endpointId + "\n" + hostname + "\n" + spki + "\n" + expiresAt
  }

  function Attest(key: Jwk, hostname: string, spki: string, expiresAt: string, digest: Jwk -> seq<Byte>): Statement
  {
    Statement(key, expiresAt, Signature(key, CanonicalString(EndpointId(key, digest), hostname, spki, expiresAt)))
  }

  function Verify(s: Statement, peerEndpoint: string, videoHost: string, spki: string, now: Time,
                  digest: Jwk -> seq<Byte>, parse: string -> Option<Time>): Verdict
  {
    var signer := EndpointId(s.jwk, digest);
    if signer != peerEndpoint then WrongEndpoint
    else if s.signature != Signature(s.jwk, CanonicalString(signer, videoHost, spki, s.expiresAt)) then BadSignature
    else match parse(s.expiresAt)
      case None => UnreadableExpiry
      case Some(expiry) => if expiry <= now then Expired else Believed
  }

  /** How many line breaks there are. */
  function Breaks(s: string): nat
  {
    if s == "" then 0 else Breaks(s[..|s| - 1]) + if s[|s| - 1] == '\n' then 1 else 0
  }

  lemma {:induction false} BreaksConcat(a: string, b: string)
    ensures Breaks(a + b) == Breaks(a) + Breaks(b)
    decreases |b|
  {
    if b == "" {
      assert a + b == a;
    } else {
      assert (a + b)[..|a + b| - 1] == a + b[..|b| - 1];
      BreaksConcat(a, b[..|b| - 1]);
    }
  }

  lemma {:induction false} OneLineHasNoBreaks(s: string)
    ensures OneLine(s) <==> Breaks(s) == 0
  {
    if s != "" {
      OneLineHasNoBreaks(s[..|s| - 1]);
      assert s == s[..|s| - 1] + [s[|s| - 1]];
    }
  }

  /** A first part, a line break and what follows. */
  function Line(first: string, rest: string): string
  {
    first + "\n" + rest
  }

  lemma BreaksOfLine(first: string, rest: string)
    ensures Breaks(Line(first, rest)) == Breaks(first) + 1 + Breaks(rest)
  {
    BreaksConcat(first + "\n", rest);
    BreaksConcat(first, "\n");
  }

  predicate BreakAlike(a: string, b: string)
  {
    Breaks(a) == Breaks(b)
  }

  lemma AlikeExactly(a: string, b: string)
    ensures BreakAlike(a, b) <==> Breaks(a) == Breaks(b)
  {}

  lemma AlikeItself(s: string)
    ensures BreakAlike(s, s)
  {}

  /** Two texts are cut at the same place when their first parts break as often. */
  lemma SplitsAlike(a: string, rest: string, b: string, rest': string)
    requires BreakAlike(a, b) && Line(a, rest) == Line(b, rest')
    ensures a == b && rest == rest'
  {
    hide Breaks;
    var s, t := Line(a, rest), Line(b, rest');
    if |a| < |b| {
      LongerBreaksMore(a, rest, b, rest');
    } else if |b| < |a| {
      LongerBreaksMore(b, rest', a, rest);
    }
    assert a == s[..|a|] == t[..|b|] == b;
    assert rest == s[|a| + 1..] == t[|b| + 1..] == rest';
  }

  lemma LongerBreaksMore(a: string, rest: string, b: string, rest': string)
    requires |a| < |b| && Line(a, rest) == Line(b, rest')
    ensures Breaks(a) < Breaks(b)
  {
    hide Breaks, Line;
    LongerIsALine(a, rest, b, rest');
    BreaksOfLine(a, b[|a| + 1..]);
  }

  lemma LongerIsALine(a: string, rest: string, b: string, rest': string)
    requires |a| < |b| && Line(a, rest) == Line(b, rest')
    ensures b == Line(a, b[|a| + 1..])
  {
    var s, t := Line(a, rest), Line(b, rest');
    assert b[..|a|] == t[..|a|] == s[..|a|] == a;
    assert b[|a|] == t[|a|] == s[|a|] == '\n';
  }

  lemma LinesNest(id: string, host: string, spki: string, date: string)
    ensures CanonicalString(id, host, spki, date) == Line(DOMAIN, Line(id, Line(host, Line(spki, date))))
  {}

  lemma BreaksOfString(id: string, host: string, spki: string, date: string)
    ensures Breaks(CanonicalString(id, host, spki, date)) ==
            Breaks(DOMAIN) + Breaks(id) + Breaks(host) + Breaks(spki) + Breaks(date) + 4
  {
    hide CanonicalString, Breaks, Line;
    LinesNest(id, host, spki, date);
    BreaksOfLine(spki, date);
    BreaksOfLine(host, Line(spki, date));
    BreaksOfLine(id, Line(host, Line(spki, date)));
    BreaksOfLine(DOMAIN, Line(id, Line(host, Line(spki, date))));
  }

  /** Whatever the fields hold, equal strings mean equal fields exactly when the first
      three break as often on both sides. */
  lemma StringSeparatesExactly(
      id: string, host: string, spki: string, date: string, id': string, host': string, spki': string, date': string)
    ensures id == id' && host == host' && spki == spki' && date == date' <==>
            && CanonicalString(id, host, spki, date) == CanonicalString(id', host', spki', date')
            && BreakAlike(id, id') && BreakAlike(host, host') && BreakAlike(spki, spki')
  {
    hide CanonicalString, BreakAlike, Line;
    AlikeItself(id);
    AlikeItself(host);
    AlikeItself(spki);
    if CanonicalString(id, host, spki, date) == CanonicalString(id', host', spki', date') {
      SameDomain(id, host, spki, date, id', host', spki', date');
      if BreakAlike(id, id') && BreakAlike(host, host') && BreakAlike(spki, spki') {
        FourLinesSplit(id, host, spki, date, id', host', spki', date');
      }
    }
  }

  lemma SameDomain(
      id: string, host: string, spki: string, date: string, id': string, host': string, spki': string, date': string)
    requires CanonicalString(id, host, spki, date) == CanonicalString(id', host', spki', date')
    ensures Line(id, Line(host, Line(spki, date))) == Line(id', Line(host', Line(spki', date')))
  {
    hide CanonicalString, BreakAlike, Line;
    LinesNest(id, host, spki, date);
    LinesNest(id', host', spki', date');
    AlikeItself(DOMAIN);
    var lines, lines' := Line(id, Line(host, Line(spki, date))), Line(id', Line(host', Line(spki', date')));
    assert Line(DOMAIN, lines) == Line(DOMAIN, lines');
    SplitsAlike(DOMAIN, lines, DOMAIN, lines');
  }

  lemma FourLinesSplit(
      id: string, host: string, spki: string, date: string, id': string, host': string, spki': string, date': string)
    requires Line(id, Line(host, Line(spki, date))) == Line(id', Line(host', Line(spki', date')))
    requires BreakAlike(id, id') && BreakAlike(host, host') && BreakAlike(spki, spki')
    ensures id == id' && host == host' && spki == spki' && date == date'
  {
    hide BreakAlike, Line;
    TwoLinesSplit(id, host, Line(spki, date), id', host', Line(spki', date'));
    SplitsAlike(spki, date, spki', date');
  }

  lemma TwoLinesSplit(id: string, host: string, rest: string, id': string, host': string, rest': string)
    requires Line(id, Line(host, rest)) == Line(id', Line(host', rest'))
    requires BreakAlike(id, id') && BreakAlike(host, host')
    ensures id == id' && host == host' && rest == rest'
  {
    hide BreakAlike, Line;
    SplitsAlike(id, Line(host, rest), id', Line(host', rest'));
    SplitsAlike(host, rest, host', rest');
  }

  /** So with an Endpoint ID and a key digest of one line each, it is enough that either
      the dates or the host names are of one line: the other may hold anything. */
  lemma CanonicalStringSeparatesFields(
      id: string, host: string, spki: string, date: string, id': string, host': string, spki': string, date': string)
    requires OneLine(id) && OneLine(spki) && OneLine(id') && OneLine(spki')
    requires (OneLine(date) && OneLine(date')) || (OneLine(host) && OneLine(host'))
    ensures CanonicalString(id, host, spki, date) == CanonicalString(id', host', spki', date') <==>
            id == id' && host == host' && spki == spki' && date == date'
  {
    hide CanonicalString, OneLine, Breaks;
    AlikeExactly(id, id');
    AlikeExactly(host, host');
    AlikeExactly(spki, spki');
    StringSeparatesExactly(id, host, spki, date, id', host', spki', date');
    OneLineHasNoBreaks(id);
    OneLineHasNoBreaks(id');
    OneLineHasNoBreaks(spki);
    OneLineHasNoBreaks(spki');
    if OneLine(date) && OneLine(date') {
      OneLineHasNoBreaks(date);
      OneLineHasNoBreaks(date');
      BreaksOfString(id, host, spki, date);
      BreaksOfString(id', host', spki', date');
    } else {
      OneLineHasNoBreaks(host);
      OneLineHasNoBreaks(host');
    }
  }

  /** A line break in a host name alone changes nothing; it takes a digest or a date
      that breaks as well.  Then a last line of the host can pass for the digest. */
  lemma LineBreaksWouldMergeFields(id: string, host: string, line: string, spki: string, date: string)
    ensures CanonicalString(id, host + "\n" + line, spki, date) == CanonicalString(id, host, line + "\n" + spki, date)
    ensures CanonicalString(id, host + "\n" + line, spki, date) == CanonicalString(id, host, line, spki + "\n" + date)
  {
    var head := DOMAIN + "\n" + id + "\n";
    var whole := head + host + "\n" + line + "\n" + spki + "\n" + date;
    assert CanonicalString(id, host + "\n" + line, spki, date) == whole;
    assert CanonicalString(id, host, line + "\n" + spki, date) == whole;
    assert CanonicalString(id, host, line, spki + "\n" + date) == whole;
  }

  /** Dates that can be read are of one line, as RFC 3339 has them. */
  ghost predicate ReadsLines(parse: string -> Option<Time>)
  {
    forall d: string :: parse(d).Some? ==> OneLine(d)
  }

  /** Whoever carries the statement, and whatever they put around it, host names
      included: a signature made by `key` over one host, key digest and date is
      believed exactly for that Endpoint, that host, that digest and that date, while
      it has not come.  The digests are computed on each side, and the signer's date
      is its own; where dates might break, one-line host names do as well. */
  lemma BelievedExactlyAsSigned(
      s: Statement, key: Jwk, host: string, spki: string, date: string,
      peer: string, host': string, spki': string, now: Time, digest: Jwk -> seq<Byte>, parse: string -> Option<Time>)
    requires s.signature == Attest(key, host, spki, date, digest).signature
    requires OneLine(spki) && OneLine(spki')
    requires (OneLine(date) && ReadsLines(parse)) || (OneLine(host) && OneLine(host'))
    ensures Verify(s, peer, host', spki', now, digest, parse) == Believed <==>
            && s == Attest(key, host, spki, date, digest)
            && peer == EndpointId(key, digest) && host' == host && spki' == spki
            && parse(date).Some? && parse(date).value > now
  {
    hide EndpointId, CanonicalString;
    EndpointIdIsOneLine(key, digest);
    EndpointIdIsOneLine(s.jwk, digest);
    if parse(s.expiresAt).Some? {
      CanonicalStringSeparatesFields(EndpointId(key, digest), host, spki, date,
                                     EndpointId(s.jwk, digest), host', spki', s.expiresAt);
    }
  }

  // ----- In figures -----

  /** Lower-case hexadecimal, high nibble first. */
  lemma HexInFigures(bytes: seq<Byte>, i: nat)
    requires i < |bytes|
    ensures Hex(bytes)[2 * i] == "0123456789abcdef"[bytes[i] / 16]
    ensures Hex(bytes)[2 * i + 1] == "0123456789abcdef"[bytes[i] % 16]
  {
    DigitInFigures(bytes[i] / 16);
    DigitInFigures(bytes[i] % 16);
  }

  lemma DigitInFigures(n: nat)
    requires n < 16
    ensures HexDigit(n) == "0123456789abcdef"[n]
  {}

  lemma IdInFigures(jwk: Jwk, digest: Jwk -> seq<Byte>)
    ensures EndpointId(jwk, digest) == "ep:" + Hex(digest(jwk))
  {}

  /** The text cut at its line breaks. */
  function Lines(s: string): (lines: seq<string>)
    ensures |lines| > 0
    decreases |s|
  {
    if s == "" then [""]
    else
      var rest := Lines(s[1..]);
      if s[0] == '\n' then [""] + rest else [[s[0]] + rest[0]] + rest[1..]
  }

  lemma {:induction false} LinesOfOne(s: string)
    requires OneLine(s)
    ensures Lines(s) == [s]
    decreases |s|
  {
    if s != "" {
      LinesOfOne(s[1..]);
      assert [s[0]] + s[1..] == s;
    }
  }

  lemma {:induction false} LinesOfLine(first: string, rest: string)
    requires OneLine(first)
    ensures Lines(Line(first, rest)) == [first] + Lines(rest)
    decreases |first|
  {
    var s := Line(first, rest);
    if first == "" {
      assert s[1..] == rest;
    } else {
      assert s[1..] == Line(first[1..], rest);
      LinesOfLine(first[1..], rest);
      assert [first[0]] + first[1..] == first;
    }
  }

  /** What is signed is these five lines, in this order. */
  lemma FiveLines(id: string, host: string, spki: string, date: string)
    requires OneLine(id) && OneLine(host) && OneLine(spki) && OneLine(date)
    ensures Lines(CanonicalString(id, host, spki, date)) ==
            ["isekai-p2p-cert-attestation-v1", id, host, spki, date]
  {
    LinesNest(id, host, spki, date);
    DomainIsOneLine();
    hide CanonicalString, OneLine, Line, Lines;
    LinesOfLine(DOMAIN, Line(id, Line(host, Line(spki, date))));
    LinesOfLine(id, Line(host, Line(spki, date)));
    LinesOfLine(host, Line(spki, date));
    LinesOfLine(spki, date);
    LinesOfOne(date);
  }

  lemma DomainIsOneLine()
    ensures OneLine(DOMAIN)
  {}

  /** A statement that is not believed is refused for the first of these that holds:
      another Endpoint signed it, the signature is over other words, its date cannot be
      read, or the date has come. */
  lemma RefusedForTheFirstReason(
      s: Statement, peer: string, host: string, spki: string, now: Time, digest: Jwk -> seq<Byte>, parse: string -> Option<Time>)
    ensures var v := Verify(s, peer, host, spki, now, digest, parse);
            var signed := s.signature == Attest(s.jwk, host, spki, s.expiresAt, digest).signature;
            && (v.WrongEndpoint? <==> EndpointId(s.jwk, digest) != peer)
            && (v.BadSignature? <==> EndpointId(s.jwk, digest) == peer && !signed)
            && (v.UnreadableExpiry? <==> EndpointId(s.jwk, digest) == peer && signed && parse(s.expiresAt).None?)
            && (v.Expired? <==>
                  EndpointId(s.jwk, digest) == peer && signed && parse(s.expiresAt).Some? && parse(s.expiresAt).value <= now)
  {}
}
