/**
 Parsing and printing of listen addresses (src/address.rs): the forms `HOST:PORT` and
 `[USER@]HOST:PORT`.
 */
module Addresses {
  import opened Options

  datatype Halves = Halves(left: string, right: string)

  datatype HostPort = HostPort(host: string, port: string)

  datatype IprotoAddress = IprotoAddress(user: Option<string>, host: string, port: string)

  /** `rsplit_once`: splits at the last occurrence of a character. */
  function SplitLast(s: string, c: char): (r: Option<Halves>)
    ensures r.Some? ==> s == r.value.left + [c] + r.value.right && c !in r.value.right
    ensures r.None? <==> c !in s
  {
    if s == [] then None
    else
      var init, last := s[..|s| - 1], s[|s| - 1];
      assert s == init + [last];
      if last == c then Some(Halves(init, []))
      else
        match SplitLast(init, c)
        case None => None
        case Some(h) => Some(Halves(h.left, h.right + [last]))
  }

  lemma SplitsNoEarlier(a: Halves, b: Halves, c: char)
    requires a.left + [c] + a.right == b.left + [c] + b.right && c !in b.right
    ensures |a.left| <= |b.left|
  {
    var s := a.left + [c] + a.right;
    assert s[|a.left|] == c;
    assert forall i :: |b.left| < i < |s| ==> s[i] == b.right[i - |b.left| - 1];
  }

  lemma SplitLastAt(left: string, c: char, right: string)
    requires c !in right
    ensures SplitLast(left + [c] + right, c) == Some(Halves(left, right))
  {
    var s := left + [c] + right;
    assert s[|left|] == c;
    var h := SplitLast(s, c).value;
    SplitsNoEarlier(h, Halves(left, right), c);
    SplitsNoEarlier(Halves(left, right), h, c);
    assert h.left == s[..|left|] && h.right == s[|left| + 1..];
    assert left == s[..|left|] && right == s[|left| + 1..];
  }

  /** `parse_host_and_port`, also the parser of HTTP addresses. */
  function ParseHostPort(addr: string): Option<HostPort> {
    match SplitLast(addr, ':')
    case None => None
    case Some(h) =>
      if h.left == [] || h.right == [] || ':' in h.left then None else Some(HostPort(h.left, h.right))
  }

  /** `IprotoAddress::parse_address`. */
  function ParseIproto(addr: string): Option<IprotoAddress> {
    match SplitLast(addr, '@')
    case Some(h) =>
      if ':' in h.left || '@' in h.left || h.left == [] then None
      else WithUser(Some(h.left), ParseHostPort(h.right))
    case None => WithUser(None, ParseHostPort(addr))
  }

  function WithUser(user: Option<string>, hp: Option<HostPort>): Option<IprotoAddress> {
    if hp.None? then None else Some(IprotoAddress(user, hp.value.host, hp.value.port))
  }

  function PrintHostPort(a: HostPort): string {
    a.host + [':'] + a.port
  }

  function PrintIproto(a: IprotoAddress): string {
    if a.user.Some? then a.user.value + ['@'] + PrintHostPort(HostPort(a.host, a.port))
    else PrintHostPort(HostPort(a.host, a.port))
  }

  predicate NoColon(s: string) {
    s != [] && ':' !in s
  }

  predicate Plain(s: string) {
    s != [] && ':' !in s && '@' !in s
  }

  /** The addresses in the image of the parsers. */
  predicate ValidHostPort(a: HostPort) {
    NoColon(a.host) && NoColon(a.port)
  }

  predicate ValidIproto(a: IprotoAddress) {
    (a.user.Some? ==> Plain(a.user.value)) && Plain(a.host) && Plain(a.port)
  }

  /** Whatever parses as `HOST:PORT` prints back to the same text, and exactly the valid addresses
      survive printing and parsing. */
  lemma HostPortRoundTrip(addr: string, a: HostPort)
    ensures ParseHostPort(addr).Some? ==>
              PrintHostPort(ParseHostPort(addr).value) == addr && ValidHostPort(ParseHostPort(addr).value)
    ensures ParseHostPort(PrintHostPort(a)) == Some(a) <==> ValidHostPort(a)
  {
    if ':' !in a.port {
      SplitLastAt(a.host, ':', a.port);
    }
  }

  /** A text without '@' that parses has no '@' in its parts. */
  lemma PartsArePlain(addr: string)
    requires ParseHostPort(addr).Some? && '@' !in addr
    ensures var hp := ParseHostPort(addr).value; Plain(hp.host) && Plain(hp.port)
  {
    var hp := ParseHostPort(addr).value;
    HostPortRoundTrip(addr, hp);
    assert forall c :: c in hp.host || c in hp.port ==> c in PrintHostPort(hp);
  }

  lemma IprotoPrintsBack(addr: string)
    requires ParseIproto(addr).Some?
    ensures PrintIproto(ParseIproto(addr).value) == addr && ValidIproto(ParseIproto(addr).value)
  {
    var split := SplitLast(addr, '@');
    var rest := if split.Some? then split.value.right else addr;
    HostPortRoundTrip(rest, HostPort("", ""));
    PartsArePlain(rest);
  }

  lemma ValidIprotoParses(a: IprotoAddress)
    requires ValidIproto(a)
    ensures ParseIproto(PrintIproto(a)) == Some(a)
  {
    var hp := HostPort(a.host, a.port);
    HostPortRoundTrip("", hp);
    assert '@' !in PrintHostPort(hp);
    if a.user.Some? {
      SplitLastAt(a.user.value, '@', PrintHostPort(hp));
    }
  }

  /** Whatever parses as `[USER@]HOST:PORT` prints back to the same text, and exactly the valid
      addresses survive printing and parsing. */
  lemma IprotoRoundTrip(addr: string, a: IprotoAddress)
    ensures ParseIproto(addr).Some? ==> PrintIproto(ParseIproto(addr).value) == addr
    ensures ParseIproto(PrintIproto(a)) == Some(a) <==> ValidIproto(a)
  {
    if ParseIproto(addr).Some? {
      IprotoPrintsBack(addr);
    }
    if ValidIproto(a) {
      ValidIprotoParses(a);
    }
    if ParseIproto(PrintIproto(a)) == Some(a) {
      IprotoPrintsBack(PrintIproto(a));
    }
  }
}
