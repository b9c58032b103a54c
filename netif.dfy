/**
 * The search for the address to advertise: the first IPv4 entry of the
 * interface list whose name starts with the requested interface name,
 * rendered as a dotted quad, or the empty string; and the startup exit
 * status that an empty result leads to.
 */
module NetIf {
  import opened Wrappers
  import opened Decimal
  import Landing

  /** The IPv4 address family number on Linux. */
  const AfInet := 2

  type Octet = x: int | 0 <= x < 256

  /** An IPv4 address, most significant octet first. */
  datatype InAddr = InAddr(a: Octet, b: Octet, c: Octet, d: Octet)

  /** A socket address: its family and, for IPv4, the address. */
  datatype SockAddr = SockAddr(family: int, inAddr: InAddr)

  /** One entry of the interface list; an entry may have no address at all. */
  datatype IfAddr = IfAddr(name: string, addr: Option<SockAddr>)

  // ---- strncmp over C strings ----

  /** The i-th character of s read as a C string: past the end is the terminator. */
  function CChar(s: string, i: nat): char {
    if i < |s| then s[i] else '\0'
  }

  predicate NoNul(s: string) {
    forall i :: 0 <= i < |s| ==> s[i] != '\0'
  }

  /**
   * Whether strncmp(a, b, n) is zero, comparing from position i on: equal
   * characters up to n, or up to a shared terminator.
   */
  function StrncmpEq(a: string, b: string, n: nat, i: nat): bool
    decreases n - i
  {
    if n <= i then true
    else if CChar(a, i) != CChar(b, i) then false
    else if CChar(a, i) == '\0' then true
    else StrncmpEq(a, b, n, i + 1)
  }

  /** For C strings, comparing |b| characters from i on means a agrees with b on [i, |b|). */
  lemma {:induction false} StrncmpSuffix(a: string, b: string, i: nat)
    requires NoNul(a) && NoNul(b) && i <= |b| && i <= |a|
    ensures StrncmpEq(a, b, |b|, i) <==> |b| <= |a| && a[i..|b|] == b[i..]
    decreases |b| - i
  {
    if i < |b| {
      assert b[i] != '\0';
      if CChar(a, i) == CChar(b, i) {
        assert i < |a|;
        StrncmpSuffix(a, b, i + 1);
        if |b| <= |a| {
          assert a[i..|b|] == [a[i]] + a[i + 1..|b|];
          assert b[i..] == [b[i]] + b[i + 1..];
        }
      } else if |b| <= |a| {
        assert a[i..|b|][0] != b[i..][0];
      }
    }
  }

  /** strncmp(name, iface, |iface|) == 0 exactly when iface is a prefix of name. */
  lemma StrncmpPrefix(name: string, iface: string)
    requires NoNul(name) && NoNul(iface)
    ensures StrncmpEq(name, iface, |iface|, 0) <==> |iface| <= |name| && name[..|iface|] == iface
  {
    StrncmpSuffix(name, iface, 0);
  }

  // ---- inet_ntoa and its reader ----

  /** The dotted-quad rendering of an address. */
  function Ntoa(x: InAddr): string {
    NatToDec(x.a) + "." + NatToDec(x.b) + "." + NatToDec(x.c) + "." + NatToDec(x.d)
  }

  /** Reads one octet and what follows it. */
  function ReadOctet(s: string): Option<(Octet, string)> {
    match ReadNat(s)
    case None => None
    case Some((n, rest)) => if n < 256 then Some((n, rest)) else None
  }

  /** What follows a leading dot. */
  function SkipDot(s: string): Option<string> {
    if 0 < |s| && s[0] == '.' then Some(s[1..]) else None
  }

  /** Reads n dot-separated octets that make up the whole of s. */
  function ReadDotted(s: string, n: nat): (r: Option<seq<Octet>>)
    requires 1 <= n
    ensures r.Some? ==> |r.value| == n
    decreases n
  {
    match ReadOctet(s)
    case None => None
    case Some((o, rest)) =>
      if n == 1 then (if rest == [] then Some([o]) else None)
      else
        match SkipDot(rest)
        case None => None
        case Some(r) =>
          match ReadDotted(r, n - 1)
          case None => None
          case Some(os) => Some([o] + os)
  }

  /** Reads a dotted quad that makes up the whole of s. */
  function ReadQuad(s: string): Option<InAddr> {
    match ReadDotted(s, 4)
    case None => None
    case Some(os) => Some(InAddr(os[0], os[1], os[2], os[3]))
  }

  lemma DottedLast(o: Octet)
    ensures ReadDotted(NatToDec(o), 1) == Some([o])
  {
    ReadNatDec(o, []);
    assert NatToDec(o) + [] == NatToDec(o);
  }

  lemma DottedNext(o: Octet, rest: string, n: nat, os: seq<Octet>)
    requires 1 <= n && ReadDotted(rest, n) == Some(os)
    ensures ReadDotted(NatToDec(o) + ("." + rest), n + 1) == Some([o] + os)
  {
    ReadNatDec(o, "." + rest);
    assert ("." + rest)[1..] == rest;
  }

  /** The dotted quad reads back as the address it renders. */
  lemma NtoaRoundTrip(x: InAddr)
    ensures ReadQuad(Ntoa(x)) == Some(x)
  {
    var da, db, dc, dd := NatToDec(x.a), NatToDec(x.b), NatToDec(x.c), NatToDec(x.d);
    var r4 := dc + ("." + dd);
    var r2 := db + ("." + r4);
    assert Ntoa(x) == da + ("." + r2);
    DottedLast(x.d);
    DottedNext(x.c, dd, 1, [x.d]);
    assert [x.c] + [x.d] == [x.c, x.d] && [x.b] + [x.c, x.d] == [x.b, x.c, x.d];
    assert [x.a] + [x.b, x.c, x.d] == [x.a, x.b, x.c, x.d];
    DottedNext(x.b, r4, 2, [x.c, x.d]);
    DottedNext(x.a, r2, 3, [x.b, x.c, x.d]);
  }

  /** A dotted quad is never empty and never holds a colon. */
  lemma NtoaShape(x: InAddr)
    ensures Ntoa(x) != [] && ':' !in Ntoa(x)
  {
    var s := Ntoa(x);
    forall i | 0 <= i < |s| ensures s[i] != ':' {
      NatToDecDigits(x.a);
      NatToDecDigits(x.b);
      NatToDecDigits(x.c);
      NatToDecDigits(x.d);
    }
  }

  lemma NatToDecDigits(n: nat)
    ensures ':' !in NatToDec(n)
  {
    var s := NatToDec(n);
    forall i | 0 <= i < |s| ensures s[i] != ':' {
      assert IsDigit(s[i]);
    }
  }

  // ---- the interface scan ----

  /** The interface name matches and the entry carries an IPv4 address. */
  predicate Matches(rec: IfAddr, iface: string) {
    rec.addr.Some? && rec.addr.value.family == AfInet && StrncmpEq(rec.name, iface, |iface|, 0)
  }

  /** The position of the first matching entry. */
  function FirstMatch(recs: seq<IfAddr>, iface: string): (r: Option<nat>)
    ensures r.Some? ==> r.value < |recs| && Matches(recs[r.value], iface)
                        && forall j :: 0 <= j < r.value ==> !Matches(recs[j], iface)
    ensures r.None? ==> forall j :: 0 <= j < |recs| ==> !Matches(recs[j], iface)
  {
    if recs == [] then None
    else if Matches(recs[0], iface) then Some(0)
    else
      match FirstMatch(recs[1..], iface)
      case None => None
      case Some(i) => Some(i + 1)
  }

  /** A matching entry that no matching entry precedes is the first match. */
  lemma FirstMatchAt(recs: seq<IfAddr>, iface: string, i: nat)
    requires i < |recs| && Matches(recs[i], iface)
    requires forall j :: 0 <= j < i ==> !Matches(recs[j], iface)
    ensures FirstMatch(recs, iface) == Some(i)
  {
  }

  /**
   * The address getIPAddress returns: ifaces is the interface list, or None
   * when getifaddrs fails.
   */
  function LookupAddress(ifaces: Option<seq<IfAddr>>, iface: string): string {
    match ifaces
    case None => ""
    case Some(recs) =>
      match FirstMatch(recs, iface)
      case None => ""
      case Some(i) => Ntoa(recs[i].addr.value.inAddr)
  }

  /** The scan: walks the list up to the first matching entry. */
  method GetIPAddress(ifaces: Option<seq<IfAddr>>, iface: string) returns (ip: string)
    ensures ip == LookupAddress(ifaces, iface)
  {
    ip := "";
    if ifaces.Some? {
      var recs := ifaces.value;
      var i := 0;
      while i < |recs|
        invariant 0 <= i <= |recs|
        invariant forall j :: 0 <= j < i ==> !Matches(recs[j], iface)
      {
        var rec := recs[i];
        if rec.addr.Some? && rec.addr.value.family == AfInet {
          if StrncmpEq(rec.name, iface, |iface|, 0) {
            ip := Ntoa(rec.addr.value.inAddr);
            FirstMatchAt(recs, iface, i);
            break;
          }
        }
        i := i + 1;
      }
    }
  }

  /** The address is empty exactly when the list is unavailable or no entry matches. */
  lemma LookupEmpty(ifaces: Option<seq<IfAddr>>, iface: string)
    ensures LookupAddress(ifaces, iface) == ""
            <==> ifaces.None? || forall j :: 0 <= j < |ifaces.value| ==> !Matches(ifaces.value[j], iface)
  {
    if ifaces.Some? {
      var r := FirstMatch(ifaces.value, iface);
      if r.Some? {
        NtoaShape(ifaces.value[r.value].addr.value.inAddr);
      }
    }
  }

  /**
   * The returned address is that of a matching entry that no matching entry
   * precedes, for C-string names: an IPv4 entry whose name begins with iface.
   */
  lemma LookupFound(recs: seq<IfAddr>, iface: string, i: nat)
    requires NoNul(iface) && forall j :: 0 <= j < |recs| ==> NoNul(recs[j].name)
    requires i < |recs| && recs[i].addr.Some? && recs[i].addr.value.family == AfInet
    requires |iface| <= |recs[i].name| && recs[i].name[..|iface|] == iface
    requires forall j :: 0 <= j < i ==> !Matches(recs[j], iface)
    ensures LookupAddress(Some(recs), iface) == Ntoa(recs[i].addr.value.inAddr)
  {
    StrncmpPrefix(recs[i].name, iface);
    FirstMatchAt(recs, iface, i);
  }

  // ---- the scan as written ----

  /**
   * The scan as the source writes it: the family is read through every
   * entry's address before the name is compared, so an entry without an
   * address that comes before the match is a null dereference (None).
   */
  function LookupAsWritten(recs: seq<IfAddr>, iface: string): Option<string> {
    if recs == [] then Some("")
    else if recs[0].addr.None? then None
    else if recs[0].addr.value.family == AfInet && StrncmpEq(recs[0].name, iface, |iface|, 0) then
      Some(Ntoa(recs[0].addr.value.inAddr))
    else LookupAsWritten(recs[1..], iface)
  }

  /** Every entry that no matching entry precedes has an address. */
  predicate AddressedUpToMatch(recs: seq<IfAddr>, iface: string) {
    forall j :: 0 <= j < |recs| && (forall i :: 0 <= i < j ==> !Matches(recs[i], iface)) ==> recs[j].addr.Some?
  }

  /** Where every entry up to the match has an address, the source's scan and the model agree. */
  lemma {:induction false} AsWrittenAgrees(recs: seq<IfAddr>, iface: string)
    requires AddressedUpToMatch(recs, iface)
    ensures LookupAsWritten(recs, iface) == Some(LookupAddress(Some(recs), iface))
    decreases |recs|
  {
    if recs != [] {
      assert recs[0].addr.Some?;
      if !Matches(recs[0], iface) {
        var tail := recs[1..];
        forall j | 0 <= j < |tail| && (forall i :: 0 <= i < j ==> !Matches(tail[i], iface))
          ensures tail[j].addr.Some?
        {
          assert forall i :: 0 <= i < j + 1 ==> !Matches(recs[i], iface) by {
            forall i | 0 <= i < j + 1 ensures !Matches(recs[i], iface) {
              if i > 0 { assert recs[i] == tail[i - 1]; }
            }
          }
        }
        AsWrittenAgrees(tail, iface);
      }
    }
  }

  /** An address-less tunnel entry listed before eth0 crashes the source's scan. */
  lemma AsWrittenCrashes()
    ensures var lan := IfAddr("eth0", Some(SockAddr(AfInet, InAddr(192, 168, 1, 2))));
            var recs := [IfAddr("tun0", None), lan];
      && LookupAsWritten(recs, "eth0") == None
      && LookupAddress(Some(recs), "eth0") == Ntoa(InAddr(192, 168, 1, 2))
  {
    var lan := IfAddr("eth0", Some(SockAddr(AfInet, InAddr(192, 168, 1, 2))));
    var recs := [IfAddr("tun0", None), lan];
    assert !Matches(recs[0], "eth0");
    assert StrncmpEq("eth0", "eth0", 4, 0) by {
      assert StrncmpEq("eth0", "eth0", 4, 4);
    }
    assert FirstMatch(recs, "eth0") == Some(1) by {
      assert FirstMatch(recs[1..], "eth0") == Some(0);
    }
  }

  // ---- startup ----

  /** The interface whose address is advertised. */
  const StreamIface := "eth0"

  /** The exit status startup ends with, if it does not go on to serve. */
  function StartupExit(ip: string): (r: Option<int>)
    ensures r == Some(5) <==> ip == ""
    ensures r.Some? ==> r.value == 5
  {
    if ip == "" then Some(5) else None
  }

  /** Startup exits with status 5 exactly when no IPv4 entry for eth0 is found. */
  lemma AbortsIffNoInterface(ifaces: Option<seq<IfAddr>>)
    ensures StartupExit(LookupAddress(ifaces, StreamIface)) == Some(5)
            <==> ifaces.None? || FirstMatch(ifaces.value, StreamIface).None?
  {
    LookupEmpty(ifaces, StreamIface);
  }

  /** When startup goes on, the landing page advertises the address found, reading back intact. */
  lemma AdvertisedPage(ifaces: Option<seq<IfAddr>>, port: int, width: int, height: int)
    requires StartupExit(LookupAddress(ifaces, StreamIface)).None?
    ensures var ip := LookupAddress(ifaces, StreamIface);
      Landing.ReadLanding(Landing.LandingPage(ip, port, width, height))
        == Some(Landing.Fields(ip, port, width, height))
  {
    var recs := ifaces.value;
    var i := FirstMatch(recs, StreamIface).value;
    NtoaShape(recs[i].addr.value.inAddr);
    Landing.LandingRoundTrip(LookupAddress(ifaces, StreamIface), port, width, height);
  }
}
