/** `HostnameParser.Parse` and the auto domains it has to recognise. */
module Hostname {
  import opened Wrappers

  predicate IsDigit(c: char) {
    '0' <= c <= '9'
  }

  lemma DigitsAreTheTen(c: char)
    ensures IsDigit(c) <==> c in "0123456789"
  {
    if IsDigit(c) {
      assert "0123456789"[(c - '0') as int] == c;
    }
  }

  predicate AllDigits(s: string) {
    forall i :: 0 <= i < |s| ==> IsDigit(s[i])
  }

  /** The position of the last occurrence, or -1. */
  function LastIndex(s: string, c: char): (i: int)
    ensures -1 <= i < |s|
    ensures i >= 0 ==> s[i] == c
    ensures forall j :: i < j < |s| ==> s[j] != c
  {
    if s == "" then -1
    else if s[|s| - 1] == c then |s| - 1
    else LastIndex(s[..|s| - 1], c)
  }

  predicate HasSuffix(s: string, suffix: string) {
    |s| >= |suffix| && s[|s| - |suffix|..] == suffix
  }

  /** A non-empty run of digits after a colon. */
  ghost predicate EndsWithPort(s: string) {
    exists host: string, digits: string :: digits != "" && AllDigits(digits) && s == host + ":" + digits
  }

  /** The host without its port, if it has one. */
  function StripPort(hostname: string): string {
    var i := LastIndex(hostname, ':');
    if i >= 0 && i + 1 < |hostname| && AllDigits(hostname[i + 1..]) then hostname[..i] else hostname
  }

  function SlugOf(host: string, base: string): Option<string> {
    var suffix := "." + base;
    if HasSuffix(host, suffix) && |host| > |suffix| then Some(host[..|host| - |suffix|]) else None
  }

  method Parse(base: string, hostname: string) returns (slug: Option<string>)
    ensures slug == SlugOf(StripPort(hostname), base)
  {
    if hostname == "" {
      return None;
    }
    var host := hostname;
    var i := LastIndex(hostname, ':');
    if i != -1 {
      var potentialPort := hostname[i + 1..];
      var isPort := |potentialPort| > 0;
      for k := 0 to |potentialPort|
        invariant isPort <==> |potentialPort| > 0 && AllDigits(potentialPort[..k])
      {
        if !IsDigit(potentialPort[k]) {
          isPort := false;
          assert !AllDigits(potentialPort);
          break;
        }
      }
      assert potentialPort[..|potentialPort|] == potentialPort;
      if isPort {
        host := hostname[..i];
      }
    }
    var suffix := "." + base;
    if !HasSuffix(host, suffix) {
      return None;
    }
    var prefix := host[..|host| - |suffix|];
    if prefix == "" {
      return None;
    }
    return Some(prefix);
  }

  // ----- Round trips

  lemma LastIndexIs(s: string, c: char, i: nat)
    requires i < |s| && s[i] == c && forall j :: i < j < |s| ==> s[j] != c
    ensures LastIndex(s, c) == i
  {
  }

  lemma StripAddedPort(host: string, digits: string)
    requires digits != "" && AllDigits(digits)
    ensures StripPort(host + ":" + digits) == host
  {
    var s := host + ":" + digits;
    assert s[|host|] == ':';
    forall j | |host| < j < |s| ensures s[j] != ':' {
      assert s[j] == digits[j - |host| - 1];
    }
    LastIndexIs(s, ':', |host|);
    assert s[|host| + 1..] == digits && s[..|host|] == host;
  }

  lemma StripOnlyPorts(s: string)
    ensures StripPort(s) != s <==> EndsWithPort(s)
  {
    var i := LastIndex(s, ':');
    if StripPort(s) != s {
      assert s == s[..i] + ":" + s[i + 1..];
    }
    if host, digits: string :| digits != "" && AllDigits(digits) && s == host + ":" + digits {
      StripAddedPort(host, digits);
    }
  }

  lemma SlugOfJoined(slug: string, base: string)
    requires slug != ""
    ensures SlugOf(slug + "." + base, base) == Some(slug)
  {
    var host := slug + "." + base;
    assert host[|host| - |"." + base|..] == "." + base && host[..|slug|] == slug;
  }

  /** With a port the slug always comes back. */
  lemma RoundTripWithPort(slug: string, base: string, digits: string)
    requires slug != "" && digits != "" && AllDigits(digits)
    ensures SlugOf(StripPort(slug + "." + base + ":" + digits), base) == Some(slug)
  {
    StripAddedPort(slug + "." + base, digits);
    SlugOfJoined(slug, base);
  }

  lemma PortIsInsideBase(slug: string, base: string)
    requires EndsWithPort(slug + "." + base)
    ensures EndsWithPort(base)
  {
    var host := slug + "." + base;
    var h, digits: string :| digits != "" && AllDigits(digits) && host == h + ":" + digits;
    assert host[|slug|] == '.' && host[|h|] == ':';
    assert forall j :: |h| < j < |host| ==> host[j] == digits[j - |h| - 1];
    assert |h| > |slug|;
    assert base == host[|slug| + 1..] == h[|slug| + 1..] + ":" + digits;
  }

  /** A port behind a dotted name makes it end in something else: the last dot would have to move. */
  lemma PortChangesTheEnd(prefix: string, host: string, digits: string)
    requires AllDigits(digits)
    ensures !HasSuffix(prefix + "." + host, "." + host + ":" + digits)
  {
    var short, s, suffix := "." + host, prefix + "." + host, "." + host + ":" + digits;
    var dot, k := LastIndex(short, '.'), |digits| + 1;
    assert short[0] == '.';
    assert forall j :: 0 <= j < |short| ==> s[|prefix| + j] == short[j] && suffix[j] == short[j];
    assert forall j :: |short| < j < |suffix| ==> suffix[j] == digits[j - |short| - 1];
    assert suffix[dot + k] != '.';
    if |s| >= |suffix| {
      assert s[|s| - |suffix|..][dot + k] == s[|prefix| + dot] == '.';
    }
  }

  lemma MoveBrackets<T>(a: seq<T>, b: seq<T>, c: seq<T>, d: seq<T>)
    ensures a + (b + c + d) == a + b + c + d
  {
  }

  lemma PortOfBaseIsStripped(slug: string, host: string, digits: string)
    requires digits != "" && AllDigits(digits)
    ensures StripPort(slug + "." + (host + ":" + digits)) == slug + "." + host
  {
    MoveBrackets(slug + ".", host, ":", digits);
    StripAddedPort(slug + "." + host, digits);
  }

  /** A base domain with a port is never at the end of what is left of the hostname without one. */
  lemma PortInBaseIsNotFound(slug: string, base: string)
    requires EndsWithPort(base)
    ensures SlugOf(StripPort(slug + "." + base), base) == None
  {
    var host, digits: string :| digits != "" && AllDigits(digits) && base == host + ":" + digits;
    PortOfBaseIsStripped(slug, host, digits);
    PortChangesTheEnd(slug, host, digits);
    assert "." + base == "." + host + ":" + digits;
  }

  /** Without a port it comes back, unless the base domain itself ends in one: then nothing is recognised. */
  lemma RoundTripIffBaseHasNoPort(slug: string, base: string)
    requires slug != ""
    ensures SlugOf(StripPort(slug + "." + base), base) == if EndsWithPort(base) then None else Some(slug)
  {
    var host := slug + "." + base;
    if EndsWithPort(base) {
      PortInBaseIsNotFound(slug, base);
    } else {
      SlugOfJoined(slug, base);
      StripOnlyPorts(host);
      if EndsWithPort(host) {
        PortIsInsideBase(slug, base);
      }
    }
  }

  lemma LocalhostHasPort()
    ensures EndsWithPort("localhost:9090") && AllDigits("80")
  {
    assert "localhost:9090" == "localhost" + ":" + "9090" && AllDigits("9090");
  }

  /** For instance: behind this base domain nothing is recognised, unless another port follows. */
  lemma LocalhostNeedsAPort(slug: string)
    requires slug != ""
    ensures SlugOf(StripPort(slug + "." + "localhost:9090"), "localhost:9090") == None
    ensures SlugOf(StripPort(slug + "." + "localhost:9090" + ":" + "80"), "localhost:9090") == Some(slug)
  {
    LocalhostHasPort();
    RoundTripIffBaseHasNoPort(slug, "localhost:9090");
    RoundTripWithPort(slug, "localhost:9090", "80");
  }

  /** Conversely, every accepted hostname is the slug in front of the base domain, possibly with a port. */
  lemma AcceptedHostsHaveTheForm(hostname: string, base: string)
    requires SlugOf(StripPort(hostname), base).Some?
    ensures var slug := SlugOf(StripPort(hostname), base).value;
            && slug != ""
            && (hostname == slug + "." + base || exists digits :: digits != "" && AllDigits(digits)
                                                   && hostname == slug + "." + base + ":" + digits)
  {
    var host := StripPort(hostname);
    var slug := SlugOf(host, base).value;
    assert host == slug + "." + base;
    if host != hostname {
      var i := LastIndex(hostname, ':');
      assert hostname == host + ":" + hostname[i + 1..];
    }
  }

  // ----- Auto domains

  function Slugify(name: string): string {
    if name == "" then ""
    else
      var c := name[|name| - 1];
      Slugify(name[..|name| - 1]) +
      if 'a' <= c <= 'z' || '0' <= c <= '9' || c == '-' then [c]
      else if 'A' <= c <= 'Z' then [c + 32 as char]
      else if c == ' ' then "-"
      else ""
  }

  method SlugifyName(name: string) returns (slug: string)
    ensures slug == Slugify(name)
  {
    slug := "";
    for i := 0 to |name|
      invariant slug == Slugify(name[..i])
    {
      var r := name[i];
      assert name[..i + 1][..i] == name[..i];
      if ('a' <= r <= 'z') || ('0' <= r <= '9') || r == '-' {
        slug := slug + [r];
      } else if 'A' <= r <= 'Z' {
        slug := slug + [r + 32 as char];
      } else if r == ' ' {
        slug := slug + "-";
      }
    }
    assert name[..|name|] == name;
  }

  function GenerateDomain(name: string, base: string): string {
    Slugify(name) + "." + base
  }

  predicate SlugChar(c: char) {
    'a' <= c <= 'z' || '0' <= c <= '9' || c == '-'
  }

  lemma {:induction false} SlugifyIsClean(name: string)
    ensures forall i :: 0 <= i < |Slugify(name)| ==> SlugChar(Slugify(name)[i])
  {
    if name != "" {
      SlugifyIsClean(name[..|name| - 1]);
    }
  }

  /** The slug is that of each character in turn. */
  lemma {:induction false} SlugifyJoins(a: string, b: string)
    ensures Slugify(a + b) == Slugify(a) + Slugify(b)
  {
    if b == "" {
      assert a + b == a;
    } else {
      SlugifyJoins(a, b[..|b| - 1]);
      assert (a + b)[..|a + b| - 1] == a + b[..|b| - 1];
    }
  }

  /** A small letter, digit or hyphen is kept, a capital made small, a space made a hyphen; the rest is dropped. */
  lemma SlugifyCharacter(c: char)
    ensures Slugify([c]) == if 'a' <= c <= 'z' || '0' <= c <= '9' || c == '-' then [c]
                            else if 'A' <= c <= 'Z' then [c + 32 as char]
                            else if c == ' ' then "-"
                            else ""
  {
    assert [c][..0] == "";
  }

  lemma EmptySlugIsRejected(base: string)
    requires !EndsWithPort(base)
    ensures SlugOf(StripPort("" + "." + base), base) == None
  {
    var host := "" + "." + base;
    StripOnlyPorts(host);
    if EndsWithPort(host) {
      PortIsInsideBase("", base);
    }
  }

  /** A generated domain leads back to the deployment's slug, unless that is empty or the base ends in a port. */
  lemma AutoDomainParsesBack(name: string, base: string)
    ensures SlugOf(StripPort(GenerateDomain(name, base)), base)
         == if Slugify(name) == "" || EndsWithPort(base) then None else Some(Slugify(name))
  {
    if EndsWithPort(base) {
      PortInBaseIsNotFound(Slugify(name), base);
    } else if Slugify(name) == "" {
      EmptySlugIsRejected(base);
    } else {
      RoundTripIffBaseHasNoPort(Slugify(name), base);
    }
  }
}
