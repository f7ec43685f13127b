/**
 The URL a provision server publishes for an image file, and its inverse.
 */
module ImageUrl {
  import opened Types
  import Ports

  // ---------------------------------------------------------------- decimal numbers

  predicate IsDigit(c: char) {
    '0' <= c <= '9'
  }

  function Digit(d: nat): (c: char)
    requires d < 10
    ensures IsDigit(c)
  {
    ('0' as int + d) as char
  }

  /** The Go verb %d for a non-negative number. */
  function Decimal(n: nat): (s: string)
    ensures s != [] && forall i | 0 <= i < |s| :: IsDigit(s[i])
  {
    if n < 10 then [Digit(n)] else Decimal(n / 10) + [Digit(n % 10)]
  }

  function ParseDecimal(s: string): Option<nat> {
    if s == [] then Some(0)
    else
      var rest, c := ParseDecimal(s[..|s| - 1]), s[|s| - 1];
      if rest.Some? && IsDigit(c) then Some(10 * rest.value + (c as int - '0' as int)) else None
  }

  lemma {:induction false} DecimalRoundTrip(n: nat)
    ensures ParseDecimal(Decimal(n)) == Some(n)
  {
    var s := Decimal(n);
    if n < 10 {
      assert s[..|s| - 1] == [];
    } else {
      DecimalRoundTrip(n / 10);
      assert s[..|s| - 1] == Decimal(n / 10);
    }
  }

  // ---------------------------------------------------------------- searching

  function FirstIndex(s: string, c: char): nat {
    if s == [] || s[0] == c then 0 else 1 + FirstIndex(s[1..], c)
  }

  lemma {:induction false} FirstIndexAfter(a: string, c: char, b: string)
    requires c !in a
    ensures FirstIndex(a + [c] + b, c) == |a|
    decreases |a|
  {
    var s := a + [c] + b;
    if a != [] {
      assert a[0] in a;
      assert s[1..] == a[1..] + [c] + b;
      FirstIndexAfter(a[1..], c, b);
    }
  }

  function LastIndex(s: string, c: char): int {
    if s == [] then -1 else if s[|s| - 1] == c then |s| - 1 else LastIndex(s[..|s| - 1], c)
  }

  lemma {:induction false} LastIndexBefore(a: string, c: char, b: string)
    requires c !in b
    ensures LastIndex(a + [c] + b, c) == |a|
    decreases |b|
  {
    var s := a + [c] + b;
    if b != [] {
      assert b[|b| - 1] in b;
      assert s[..|s| - 1] == a + [c] + b[..|b| - 1];
      LastIndexBefore(a, c, b[..|b| - 1]);
    }
  }

  // ---------------------------------------------------------------- the URL

  const SCHEME := "http://"

  /** What the URL is made of; `bracketed` is the verdict of the IPv6 test on the host. */
  datatype Parts = Parts(host: string, bracketed: bool, port: nat, file: string)

  function Authority(p: Parts): string {
    (if p.bracketed then "[" + p.host + "]" else p.host) + ":" + Decimal(p.port)
  }

  function Render(p: Parts): string {
    SCHEME + Authority(p) + "/" + p.file
  }

  /** The provisioning address if the agent reported one, else the address of the node. */
  function LocalImageUrl(provisionIp: string, hostIp: string, isIpv6: string -> bool, port: nat, file: string): string {
    var host := if provisionIp != "" then provisionIp else hostIp;
    Render(Parts(host, isIpv6(host), port, file))
  }

  function ParseAuthority(s: string): Option<Parts> {
    var j := LastIndex(s, ':');
    if !(0 <= j < |s|) then None
    else
      var port, h := ParseDecimal(s[j + 1..]), s[..j];
      if port.None? then None
      else if |h| >= 2 && h[0] == '[' then Some(Parts(h[1..|h| - 1], true, port.value, ""))
      else Some(Parts(h, false, port.value, ""))
  }

  function Parse(url: string): Option<Parts> {
    if !(SCHEME <= url) then None
    else
      var rest := url[|SCHEME|..];
      var i := FirstIndex(rest, '/');
      if i >= |rest| then None
      else
        match ParseAuthority(rest[..i])
        case None => None
        case Some(p) => Some(p.(file := rest[i + 1..]))
  }

  /** IP literals contain no slash and do not start with a bracket. */
  predicate LiteralHost(host: string) {
    '/' !in host && (host != "" ==> host[0] != '[')
  }

  lemma NoSeparatorInDecimal(n: nat)
    ensures ':' !in Decimal(n) && '/' !in Decimal(n)
  {
  }

  lemma AuthorityRoundTrip(p: Parts)
    requires LiteralHost(p.host)
    ensures ParseAuthority(Authority(p)) == Some(p.(file := ""))
  {
    var h := if p.bracketed then "[" + p.host + "]" else p.host;
    var digits, s := Decimal(p.port), Authority(p);
    NoSeparatorInDecimal(p.port);
    assert s == h + [':'] + digits;
    LastIndexBefore(h, ':', digits);
    assert s[|h| + 1..] == digits && s[..|h|] == h;
    DecimalRoundTrip(p.port);
    if p.bracketed {
      assert h[1..|h| - 1] == p.host;
    }
  }

  /** The URL determines host, port and file name. */
  lemma UrlRoundTrip(p: Parts)
    requires LiteralHost(p.host)
    ensures Parse(Render(p)) == Some(p)
  {
    var a, url := Authority(p), Render(p);
    NoSeparatorInDecimal(p.port);
    var rest := url[|SCHEME|..];
    assert rest == a + ['/'] + p.file;
    FirstIndexAfter(a, '/', p.file);
    assert rest[..|a|] == a && rest[|a| + 1..] == p.file;
    AuthorityRoundTrip(p);
  }

  /** The URL names the provisioning address if there is one and else the node's, bracketed exactly if IPv6. */
  lemma LocalImageUrlIsRead(provisionIp: string, hostIp: string, isIpv6: string -> bool, port: nat, file: string)
    requires LiteralHost(provisionIp) && LiteralHost(hostIp)
    ensures
      var url := LocalImageUrl(provisionIp, hostIp, isIpv6, port, file);
      && (provisionIp != "" ==> Parse(url) == Some(Parts(provisionIp, isIpv6(provisionIp), port, file)))
      && (provisionIp == "" ==> Parse(url) == Some(Parts(hostIp, isIpv6(hostIp), port, file)))
  {
    var host := if provisionIp != "" then provisionIp else hostIp;
    UrlRoundTrip(Parts(host, isIpv6(host), port, file));
  }

  /** One URL of each kind, piece by piece. */
  lemma UrlExamples(isIpv6: string -> bool)
    requires !isIpv6("172.22.0.3") && isIpv6("fd00::3")
    ensures LocalImageUrl("172.22.0.3", "10.0.0.1", isIpv6, 6190, "edpm.qcow2") ==
            "http://" + ("172.22.0.3" + ":" + "6190") + "/" + "edpm.qcow2"
    ensures LocalImageUrl("", "fd00::3", isIpv6, 6191, "edpm.qcow2") ==
            "http://" + (("[" + "fd00::3" + "]") + ":" + "6191") + "/" + "edpm.qcow2"
  {
    DecimalOfPorts();
  }

  lemma DecimalOfPorts()
    ensures Decimal(6190) == "6190" && Decimal(6191) == "6191"
  {
    assert Decimal(6) == "6" && Decimal(61) == "61" && Decimal(619) == "619";
  }

  /** The addresses a provision server may be reached at. */
  datatype Addresses = Addresses(provisionIp: string, hostIp: string)

  /** After any run of admissions, two servers never compute the same URL, whatever their addresses and files. */
  lemma ServersHaveDifferentUrls(
    requests: seq<Ports.Request>, k: Ports.Key, j: Ports.Key, isIpv6: string -> bool,
    a: Addresses, port: nat, file: string, b: Addresses, port': nat, file': string)
    requires
      var servers := Ports.AdmitAll(map[], requests);
      k in servers && j in servers && k != j && servers[k] == port && servers[j] == port'
    requires LiteralHost(a.provisionIp) && LiteralHost(a.hostIp) && LiteralHost(b.provisionIp) && LiteralHost(b.hostIp)
    ensures LocalImageUrl(a.provisionIp, a.hostIp, isIpv6, port, file) !=
            LocalImageUrl(b.provisionIp, b.hostIp, isIpv6, port', file')
  {
    Ports.PortsDistinctInEveryRun(map[], requests);
    var host := if a.provisionIp != "" then a.provisionIp else a.hostIp;
    var host' := if b.provisionIp != "" then b.provisionIp else b.hostIp;
    UrlRoundTrip(Parts(host, isIpv6(host), port, file));
    UrlRoundTrip(Parts(host', isIpv6(host'), port', file'));
  }
}
