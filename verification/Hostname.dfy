/**
 Whether a certificate names the host that was dialled: `dns_matches` on one name
 (section 6.4.3 of RFC 6125) and the search through a certificate's names.

 Parsing DER and the textual form of an address belong to libraries; the parsed
 names, `parse` and `show` are arguments.
 */
module Hostname {
  import opened Wrappers
  import opened VarInt

  function Lower(c: char): char
  {
    if 'A' <= c <= 'Z' then (c as int + 32) as char else c
  }

  /** `eq_ignore_ascii_case`. */
  predicate EqIgnoreCase(a: string, b: string)
  {
    |a| == |b| && forall i | 0 <= i < |a| :: Lower(a[i]) == Lower(b[i])
  }

  /** `trim_end_matches('.')`. */
  function TrimDots(s: string): (t: string)
    ensures t <= s
    ensures t != "" ==> t[|t| - 1] != '.'
    ensures forall i | |t| <= i < |s| :: s[i] == '.'
  {
    if s != "" && s[|s| - 1] == '.' then TrimDots(s[..|s| - 1]) else s
  }

  /** `split_once('.')`. */
  function SplitOnce(s: string): (r: Option<(string, string)>)
    ensures r.Some? ==> s == r.value.0 + "." + r.value.1 && '.' !in r.value.0
    ensures r.None? ==> '.' !in s
  {
    if s == "" then None
    else if s[0] == '.' then Some(("", s[1..]))
    else match SplitOnce(s[1..])
      case None => None
      case Some((first, tail)) => Some(([s[0]] + first, tail))
  }

  function DnsMatches(pattern: string, host: string): bool
  {
    var p, h := TrimDots(pattern), TrimDots(host);
    if p == "" || h == "" then false
    else if !("*." <= p) then EqIgnoreCase(p, h)
    else match SplitOnce(h)
      case Some((first, tail)) => first != "" && EqIgnoreCase(tail, p[2..])
      case None => false
  }

  // ----- What it means, label by label -----

  function Labels(s: string): (ls: seq<string>)
    ensures |ls| > 0
  {
    if s == "" then [""]
    else
      var rest := Labels(s[1..]);
      if s[0] == '.' then [""] + rest else [[s[0]] + rest[0]] + rest[1..]
  }

  predicate SameLabels(a: seq<string>, b: seq<string>)
  {
    |a| == |b| && forall i | 0 <= i < |a| :: EqIgnoreCase(a[i], b[i])
  }

  /** A first label `*`, with more after it, stands for exactly one label that is
      not empty; everything else stands for itself, whatever its case. */
  predicate LabelsMatch(pattern: seq<string>, host: seq<string>)
    requires |pattern| > 0 && |host| > 0
  {
    if pattern[0] == "*" && |pattern| > 1 then host[0] != "" && SameLabels(pattern[1..], host[1..])
    else SameLabels(pattern, host)
  }

  lemma {:induction false} SameTextSameLabels(a: string, b: string)
    ensures EqIgnoreCase(a, b) <==> SameLabels(Labels(a), Labels(b))
    decreases |a|
  {
    if a == "" && b != "" {
      EmptyIsOneLabel(b);
    } else if a != "" && b == "" {
      EmptyIsOneLabel(a);
    } else if a != "" {
      var ra, rb := Labels(a[1..]), Labels(b[1..]);
      SameTextSameLabels(a[1..], b[1..]);
      assert EqIgnoreCase(a, b) <==> Lower(a[0]) == Lower(b[0]) && EqIgnoreCase(a[1..], b[1..]) by {
        assert forall i | 1 <= i < |a| :: a[i] == a[1..][i - 1];
        assert forall i | 1 <= i < |b| :: b[i] == b[1..][i - 1];
      }
      if a[0] == '.' && b[0] == '.' {
        SameLabelsCons("", ra, "", rb);
      } else if a[0] != '.' && b[0] != '.' {
        SameLabelsCons([a[0]] + ra[0], ra[1..], [b[0]] + rb[0], rb[1..]);
        SameLabelsCons(ra[0], ra[1..], rb[0], rb[1..]);
        assert [ra[0]] + ra[1..] == ra && [rb[0]] + rb[1..] == rb;
        EqIgnoreCaseCons(a[0], ra[0], b[0], rb[0]);
      } else {
        assert !EqIgnoreCase(Labels(a)[0], Labels(b)[0]);
      }
    }
  }

  lemma EmptyIsOneLabel(s: string)
    requires s != ""
    ensures !SameLabels(Labels(""), Labels(s)) && !SameLabels(Labels(s), Labels(""))
  {
    if s[0] != '.' {
      assert |Labels(s)[0]| > 0;
      assert !EqIgnoreCase(Labels("")[0], Labels(s)[0]) && !EqIgnoreCase(Labels(s)[0], Labels("")[0]);
    }
  }

  lemma SameLabelsCons(x: string, a: seq<string>, y: string, b: seq<string>)
    ensures SameLabels([x] + a, [y] + b) <==> EqIgnoreCase(x, y) && SameLabels(a, b)
  {
    hide EqIgnoreCase;
    var xa, yb := [x] + a, [y] + b;
    if SameLabels(xa, yb) {
      assert EqIgnoreCase(xa[0], yb[0]);
      forall i | 0 <= i < |a|
        ensures EqIgnoreCase(a[i], b[i])
      {
        assert EqIgnoreCase(xa[i + 1], yb[i + 1]);
      }
    }
  }

  lemma EqIgnoreCaseCons(x: char, a: string, y: char, b: string)
    ensures EqIgnoreCase([x] + a, [y] + b) <==> Lower(x) == Lower(y) && EqIgnoreCase(a, b)
  {
    var xa, yb := [x] + a, [y] + b;
    if EqIgnoreCase(xa, yb) {
      assert Lower(xa[0]) == Lower(yb[0]);
      forall i | 0 <= i < |a|
        ensures Lower(a[i]) == Lower(b[i])
      {
        assert Lower(xa[i + 1]) == Lower(yb[i + 1]);
      }
    }
  }

  lemma {:induction false} FirstLabel(first: string, tail: string)
    requires '.' !in first
    ensures Labels(first + "." + tail) == [first] + Labels(tail)
  {
    var s := first + "." + tail;
    if first == "" {
      assert s[1..] == tail;
    } else {
      assert s[1..] == first[1..] + "." + tail;
      FirstLabel(first[1..], tail);
      assert [first[0]] + first[1..] == first;
    }
  }

  lemma {:induction false} OneLabel(s: string)
    requires '.' !in s
    ensures Labels(s) == [s]
  {
    if s != "" {
      OneLabel(s[1..]);
      assert [s[0]] + s[1..] == s;
    }
  }

  /** A leading `*.` is a first label `*` with more labels after it. */
  lemma StarDot(p: string)
    ensures "*." <= p <==> Labels(p)[0] == "*" && |Labels(p)| > 1
    ensures "*." <= p ==> Labels(p) == ["*"] + Labels(p[2..])
  {
    match SplitOnce(p)
    case None => OneLabel(p);
    case Some((first, tail)) =>
      FirstLabel(first, tail);
      if first == "*" {
        assert p[2..] == tail;
      } else if "*." <= p {
        assert p[0] == '*' && p[1] == '.';
        StarDotSplits(p, first, tail);
      }
  }

  lemma StarDotSplits(p: string, first: string, tail: string)
    requires "*." <= p && p == first + "." + tail && '.' !in first
    ensures first == "*"
  {
    assert p[0] == '*' && p[1] == '.';
    assert forall i | 0 <= i < |first| :: p[i] == first[i];
    assert p[|first|] == '.';
  }

  /** `dns_matches` is exactly the label rule on the names without their trailing
      dots, for every pattern and host. */
  lemma DnsMatchesIsTheLabelRule(pattern: string, host: string)
    ensures DnsMatches(pattern, host) <==>
            var (p, h) := (TrimDots(pattern), TrimDots(host));
            p != "" && h != "" && LabelsMatch(Labels(p), Labels(h))
  {
    hide TrimDots, Labels, EqIgnoreCase, SameLabels, SplitOnce;
    var p, h := TrimDots(pattern), TrimDots(host);
    StarDot(p);
    if "*." <= p {
      match SplitOnce(h)
      case None =>
        OneLabel(h);
        LengthsDiffer(Labels(p[2..]), Labels(h)[1..]);
      case Some((first, tail)) =>
        FirstLabel(first, tail);
        SameTextSameLabels(tail, p[2..]);
        SameLabelsSymmetric(Labels(tail), Labels(p[2..]));
        assert Labels(p)[1..] == Labels(p[2..]) && Labels(h)[1..] == Labels(tail);
    } else {
      SameTextSameLabels(p, h);
    }
  }

  lemma LengthsDiffer(a: seq<string>, b: seq<string>)
    requires |a| > 0 && b == []
    ensures !SameLabels(a, b)
  {}

  lemma SameLabelsSymmetric(a: seq<string>, b: seq<string>)
    ensures SameLabels(a, b) <==> SameLabels(b, a)
  {}

  /** A wildcard never covers the bare domain nor two labels: a host it matches has
      exactly one label more than what follows the star. */
  lemma WildcardCoversOneLabel(domain: string, host: string)
    requires TrimDots(domain) == domain && domain != ""
    requires DnsMatches("*." + domain, host)
    ensures |Labels(TrimDots(host))| == 1 + |Labels(domain)|
  {
    hide Labels, EqIgnoreCase;
    var pattern := "*." + domain;
    TrimNothing(pattern);
    DnsMatchesIsTheLabelRule(pattern, host);
    StarDot(pattern);
    assert pattern[2..] == domain;
  }

  lemma TrimNothing(s: string)
    requires s != "" && s[|s| - 1] != '.'
    ensures TrimDots(s) == s
  {}

  // ----- The certificate -----

  datatype IpAddr = Ip4(octets: seq<Byte>) | Ip6(octets: seq<Byte>)
  datatype GeneralName = DnsName(dns: string) | IpName(bytes: seq<Byte>) | OtherName
  datatype Certificate = Unparseable | WithoutSan | Names(names: seq<GeneralName>)
  datatype Verdict = Accepted | DoesNotParse | HasNoSan | NamesOthers(presented: seq<string>)

  function AddressOf(bytes: seq<Byte>): Option<IpAddr>
  {
    if |bytes| == 4 then Some(Ip4(bytes)) else if |bytes| == 16 then Some(Ip6(bytes)) else None
  }

  /** A bracketed host without its brackets. */
  function Unbracketed(host: string): string
  {
    if |host| >= 2 && host[0] == '[' && host[|host| - 1] == ']' then host[1..|host| - 1] else host
  }

  /** A host that is an address is matched by address entries only, any other host
      by DNS entries only. */
  predicate Satisfies(name: GeneralName, host: string, wanted: Option<IpAddr>)
  {
    match name
    case DnsName(dns) => wanted.None? && DnsMatches(dns, host)
    case IpName(bytes) => wanted.Some? && AddressOf(bytes) == wanted
    case OtherName => false
  }

  /** What a name contributes to the list a refusal carries. */
  function Presented(name: GeneralName, show: IpAddr -> string): seq<string>
  {
    match name
    case DnsName(dns) => [dns]
    case IpName(bytes) => if AddressOf(bytes).Some? then [show(AddressOf(bytes).value)] else []
    case OtherName => []
  }

  function PresentedAll(names: seq<GeneralName>, show: IpAddr -> string): seq<string>
  {
    if names == [] then []
    else PresentedAll(names[..|names| - 1], show) + Presented(names[|names| - 1], show)
  }

  lemma PresentedPush(names: seq<GeneralName>, name: GeneralName, show: IpAddr -> string)
    ensures PresentedAll([], show) == []
    ensures PresentedAll(names + [name], show) == PresentedAll(names, show) + Presented(name, show)
  {
    assert (names + [name])[..|names|] == names;
  }

  /** Accepted exactly when some entry of the kind the host calls for matches it;
      a refusal lists, in order, everything that was presented. */
  method CertificateMatches(certificate: Certificate, host: string,
                            parse: string -> Option<IpAddr>, show: IpAddr -> string)
    returns (verdict: Verdict)
    ensures verdict == Accepted <==>
            certificate.Names? &&
            exists i | 0 <= i < |certificate.names| :: Satisfies(certificate.names[i], host, parse(Unbracketed(host)))
    ensures verdict == DoesNotParse <==> certificate.Unparseable?
    ensures verdict == HasNoSan <==> certificate.WithoutSan?
    ensures verdict.NamesOthers? ==>
              certificate.Names? && verdict.presented == PresentedAll(certificate.names, show)
  {
    match certificate {
      case Unparseable => return DoesNotParse;
      case WithoutSan => return HasNoSan;
      case Names(_) =>
    }
    var wantedIp := parse(Unbracketed(host));
    verdict := SearchNames(certificate.names, host, wantedIp, show);
  }

  /** The loop over the names, leaving at the first that matches. */
  method SearchNames(names: seq<GeneralName>, host: string, wantedIp: Option<IpAddr>, show: IpAddr -> string)
    returns (verdict: Verdict)
    ensures verdict == Accepted || verdict == NamesOthers(PresentedAll(names, show))
    ensures verdict == Accepted <==> exists i | 0 <= i < |names| :: Satisfies(names[i], host, wantedIp)
  {
    hide PresentedAll, Presented, Satisfies;
    var presented := [];
    PresentedPush([], OtherName, show);
    assert names[..0] == [];
    for i := 0 to |names|
      invariant presented == PresentedAll(names[..i], show)
      invariant forall j | 0 <= j < i :: !Satisfies(names[j], host, wantedIp)
    {
      assert names[..i + 1] == names[..i] + [names[i]];
      PresentedPush(names[..i], names[i], show);
      var shown, matches := Consider(names[i], host, wantedIp, show);
      presented := presented + shown;
      if matches {
        return Accepted;
      }
    }
    assert names[..|names|] == names;
    verdict := NamesOthers(presented);
  }

  /** One name: what it adds to the list, and whether it settles the matter. */
  method Consider(name: GeneralName, host: string, wantedIp: Option<IpAddr>, show: IpAddr -> string)
    returns (shown: seq<string>, matches: bool)
    ensures shown == Presented(name, show) && matches == Satisfies(name, host, wantedIp)
  {
    match name {
      case DnsName(dns) =>
        shown := [dns];
        matches := wantedIp.None? && DnsMatches(dns, host);
      case IpName(bytes) =>
        var addr := AddressOf(bytes);
        if addr.Some? {
          shown := [show(addr.value)];
          matches := wantedIp == addr;
        } else {
          shown, matches := [], false;
        }
      case OtherName =>
        shown, matches := [], false;
    }
  }

  // ----- In figures -----

  /** The same text up to the case of its ASCII letters. */
  ghost predicate OnlyCaseDiffers(a: string, b: string)
  {
    |a| == |b| && forall i | 0 <= i < |a| ::
      || a[i] == b[i]
      || ('A' <= a[i] <= 'Z' && b[i] as int == a[i] as int + 32)
      || ('A' <= b[i] <= 'Z' && a[i] as int == b[i] as int + 32)
  }

  lemma EqIgnoreCaseIsCaseOnly(a: string, b: string)
    ensures EqIgnoreCase(a, b) <==> OnlyCaseDiffers(a, b)
  {}

  /** An address entry is four or sixteen octets, and nothing else is an address. */
  lemma AddressesInFigures(bytes: seq<Byte>)
    ensures AddressOf(bytes) ==
            if |bytes| == 4 then Some(Ip4(bytes)) else if |bytes| == 16 then Some(Ip6(bytes)) else None
  {}

  /** Brackets come off in pairs only. */
  lemma BracketsComeOff(host: string)
    ensures Unbracketed("[" + host + "]") == host
    ensures !("[" <= host) || host[|host| - 1] != ']' || |host| < 2 ==> Unbracketed(host) == host
  {
    var s := "[" + host + "]";
    assert s[0] == '[' && s[|s| - 1] == ']' && s[1..|s| - 1] == host;
  }

  /** A refusal lists every DNS entry as it stands and every address as it prints, and
      passes over entries of other kinds and of no address. */
  lemma {:induction false} RefusalListsWhatWasPresented(names: seq<GeneralName>, show: IpAddr -> string, shown: string)
    ensures shown in PresentedAll(names, show) <==>
            exists i | 0 <= i < |names| ::
              || names[i] == DnsName(shown)
              || (names[i].IpName? && |names[i].bytes| == 4 && show(Ip4(names[i].bytes)) == shown)
              || (names[i].IpName? && |names[i].bytes| == 16 && show(Ip6(names[i].bytes)) == shown)
  {
    if names != [] {
      var n := |names| - 1;
      RefusalListsWhatWasPresented(names[..n], show, shown);
      assert forall i | 0 <= i < n :: names[..n][i] == names[i];
    }
  }

  /** Addresses are held against address entries, octet for octet, and every other host
      against DNS entries; nothing else counts. */
  lemma KindsAreKeptApart(name: GeneralName, host: string, wanted: Option<IpAddr>)
    ensures Satisfies(name, host, wanted) <==>
            || (wanted.None? && name.DnsName? && DnsMatches(name.dns, host))
            || (wanted.Some? && name.IpName? && wanted == Some(Ip4(name.bytes)) && |name.bytes| == 4)
            || (wanted.Some? && name.IpName? && wanted == Some(Ip6(name.bytes)) && |name.bytes| == 16)
  {}
}
