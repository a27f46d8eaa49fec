/** Which request paths name a project server, and how they split into mount and upstream path. */
module ProxyRoute {
  import opened Text
  import ProxyCookie
  import ProxyRewrite

  const SERVER_PATH := "/project/server/"

  const MAX_PORT := 65535

  datatype Route = Route(port: nat, prefix: string, upstreamPath: string, needsSlash: bool)

  datatype Parsed = Ok(route: Route) | Err(reason: Refusal)

  datatype Refusal = PortMissing | NotAServerPath | PortNotNumeric | PortOutOfRange | PortNotCanonical

  predicate IsDigit(c: char) {
    '0' <= c <= '9'
  }

  predicate AllDigits(s: string) {
    forall i :: 0 <= i < |s| ==> IsDigit(s[i])
  }

  /** The number that decimal digits stand for. */
  function Value(s: string): nat
    requires AllDigits(s)
  {
    if s == "" then 0 else 10 * Value(s[..|s| - 1]) + (s[|s| - 1] as int - '0' as int)
  }

  /** The decimal notation of a number. */
  function Decimal(n: nat): (s: string)
    ensures s != "" && AllDigits(s)
  {
    var digit := ('0' as int + n % 10) as char;
    if n < 10 then [digit] else Decimal(n / 10) + [digit]
  }

  lemma {:induction false} ValueOfDecimal(n: nat)
    ensures Value(Decimal(n)) == n
  {
    if n < 10 {
      assert Decimal(n)[..0] == "";
    } else {
      ValueOfDecimal(n / 10);
      assert Decimal(n)[..|Decimal(n)| - 1] == Decimal(n / 10);
    }
  }

  /** Decimal notation has no leading zero but that of zero itself, and that makes it the only notation. */
  lemma {:induction false} CanonicalIff(s: string)
    requires s != "" && AllDigits(s)
    ensures Decimal(Value(s)) == s <==> (s == "0" || s[0] != '0')
    ensures s[0] != '0' ==> Value(s) >= 1
  {
    var init, last := s[..|s| - 1], s[|s| - 1];
    assert s == init + [last];
    if init == "" {
      assert Value(init) == 0 && Value(s) == last as int - '0' as int;
    } else {
      CanonicalIff(init);
      assert Value(s) == 10 * Value(init) + (last as int - '0' as int);
      if s[0] != '0' {
        assert Value(s) / 10 == Value(init) && Value(s) % 10 == last as int - '0' as int;
      } else {
        LeadingZero(s);
      }
    }
  }

  lemma {:induction false} LeadingZero(s: string)
    requires |s| >= 2 && AllDigits(s) && s[0] == '0'
    ensures Decimal(Value(s)) != s
  {
    DecimalStart(Value(s));
    if Value(s) == 0 {
      assert |Decimal(0)| == 1;
    }
  }

  lemma {:induction false} DecimalStart(n: nat)
    ensures n > 0 ==> Decimal(n)[0] != '0'
  {
    if n >= 10 {
      DecimalStart(n / 10);
    }
  }

  /** Text up to the first slash, and what follows it. */
  function Cut(s: string): (r: (string, string, bool))
    ensures forall i :: 0 <= i < |r.0| ==> r.0[i] != '/'
    ensures s == r.0 + if r.2 then "/" + r.1 else ""
    ensures !r.2 ==> r.1 == ""
  {
    if s == "" then ("", "", false)
    else if s[0] == '/' then ("", s[1..], true)
    else
      var rest := Cut(s[1..]);
      ([s[0]] + rest.0, rest.1, rest.2)
  }

  method CheckDigits(portText: string) returns (ok: bool)
    ensures ok <==> AllDigits(portText)
  {
    for i := 0 to |portText|
      invariant AllDigits(portText[..i])
    {
      if portText[i] < '0' || portText[i] > '9' {
        return false;
      }
      assert portText[..i + 1] == portText[..i] + [portText[i]];
    }
    assert portText[..|portText|] == portText;
    return true;
  }

  /** A request path names a server when a canonical port in range ends it or is followed by a slash. */
  ghost predicate Names(requestPath: string, port: nat, rest: string) {
    && 1 <= port <= MAX_PORT
    && requestPath == SERVER_PATH + Decimal(port) + rest
    && (rest == "" || rest[0] == '/')
  }

  /** How a route comes from a request path: the rest behind the port is the upstream path, or missing, then "/". */
  ghost predicate Splits(requestPath: string, route: Route) {
    && Names(requestPath, route.port, if route.needsSlash then "" else route.upstreamPath)
    && route.prefix == SERVER_PATH + Decimal(route.port)
    && HasPrefix(route.upstreamPath, "/") && (route.needsSlash ==> route.upstreamPath == "/")
  }

  method ParseProjectProxyRoute(requestPath: string) returns (r: Parsed)
    ensures r.Ok? <==> exists port, rest :: Names(requestPath, port, rest)
    ensures r.Ok? ==> Splits(requestPath, r.route)
    ensures r == Err(NotAServerPath) <==>
              requestPath != "/project/server" && !HasPrefix(requestPath, "/project/server/")
    ensures r == Err(PortMissing) <==>
              requestPath in {"/project/server", "/project/server/"} || HasPrefix(requestPath, "/project/server//")
  {
    if requestPath == "/project/server" || requestPath == SERVER_PATH {
      NoPortNoName(requestPath);
      return Err(PortMissing);
    }
    if !HasPrefix(requestPath, SERVER_PATH) {
      NamedHasPrefix(requestPath);
      return Err(NotAServerPath);
    }
    var remainder := requestPath[|SERVER_PATH|..];
    assert requestPath == SERVER_PATH + remainder;
    var (portText, suffix, hasSlash) := Cut(remainder);
    NamesByPortText(requestPath, remainder);
    NothingBeforeSlash(requestPath, remainder);
    if portText == "" {
      return Err(PortMissing);
    }
    var numeric := CheckDigits(portText);
    if !numeric {
      return Err(PortNotNumeric);
    }
    var port := Value(portText);
    if port < 1 || port > MAX_PORT {
      return Err(PortOutOfRange);
    }
    if Decimal(port) != portText {
      return Err(PortNotCanonical);
    }
    var prefix := SERVER_PATH + portText;
    var upstreamPath := "/";
    if hasSlash {
      upstreamPath := upstreamPath + suffix;
    }
    assert Names(requestPath, port, if hasSlash then upstreamPath else "");
    return Ok(Route(port, prefix, upstreamPath, !hasSlash));
  }

  lemma NothingBeforeSlash(requestPath: string, remainder: string)
    requires requestPath == SERVER_PATH + remainder && remainder != ""
    ensures Cut(remainder).0 == "" <==> HasPrefix(requestPath, "/project/server//")
  {
    var doubled := "/project/server//";
    assert |doubled| == |SERVER_PATH| + 1 && doubled == SERVER_PATH + "/";
    assert requestPath[..|SERVER_PATH| + 1] == SERVER_PATH + [remainder[0]];
    assert doubled[|SERVER_PATH|] == '/';
  }

  /** A server is named by a path with the number of a port in it, and a route spells the path's parts. */
  lemma NamesMeans(requestPath: string, port: nat, rest: string)
    ensures Names(requestPath, port, rest) <==>
            && 1 <= port <= 65535 && requestPath == "/project/server/" + Decimal(port) + rest
            && (rest == "" || rest[0] == '/')
  {
  }

  lemma SplitsMeans(requestPath: string, route: Route)
    ensures Splits(requestPath, route) <==>
            && 1 <= route.port <= 65535 && route.prefix == "/project/server/" + Decimal(route.port)
            && (if route.needsSlash then requestPath == route.prefix && route.upstreamPath == "/"
                else requestPath == route.prefix + route.upstreamPath && HasPrefix(route.upstreamPath, "/"))
  {
    assert SERVER_PATH + Decimal(route.port) + "" == SERVER_PATH + Decimal(route.port);
    if HasPrefix(route.upstreamPath, "/") {
      assert route.upstreamPath[..1] == "/";
    }
  }

  lemma NamedHasPrefix(requestPath: string)
    requires !HasPrefix(requestPath, SERVER_PATH)
    ensures !exists port, rest :: Names(requestPath, port, rest)
  {
  }

  lemma NoPortNoName(requestPath: string)
    requires |requestPath| <= |SERVER_PATH|
    ensures !exists port, rest :: Names(requestPath, port, rest)
  {
  }

  lemma {:induction false} CutOf(a: string, rest: string)
    requires forall i :: 0 <= i < |a| ==> a[i] != '/'
    requires rest == "" || rest[0] == '/'
    ensures Cut(a + rest) == (a, if rest == "" then "" else rest[1..], rest != "")
  {
    if a == "" {
      assert a + rest == rest;
    } else {
      assert (a + rest)[1..] == a[1..] + rest;
      CutOf(a[1..], rest);
      assert [a[0]] + a[1..] == a;
    }
  }

  /** The text up to the next slash decides whether, and which, server is named. */
  lemma NamesByPortText(requestPath: string, remainder: string)
    requires requestPath == SERVER_PATH + remainder
    ensures
      var text := Cut(remainder).0;
      (exists port, rest :: Names(requestPath, port, rest)) <==>
      text != "" && AllDigits(text) && 1 <= Value(text) <= MAX_PORT && Decimal(Value(text)) == text
  {
    var (text, suffix, hasSlash) := Cut(remainder);
    forall port, rest | Names(requestPath, port, rest)
      ensures text == Decimal(port) && Value(text) == port
    {
      NamedPortText(requestPath, remainder, port, rest);
    }
    if text != "" && AllDigits(text) && 1 <= Value(text) <= MAX_PORT && Decimal(Value(text)) == text {
      var rest := if hasSlash then "/" + suffix else "";
      assert SERVER_PATH + (text + rest) == SERVER_PATH + text + rest;
      assert Names(requestPath, Value(text), rest);
    }
  }

  lemma NamedPortText(requestPath: string, remainder: string, port: nat, rest: string)
    requires requestPath == SERVER_PATH + remainder && Names(requestPath, port, rest)
    ensures Cut(remainder).0 == Decimal(port) && Value(Decimal(port)) == port
  {
    assert SERVER_PATH + Decimal(port) + rest == SERVER_PATH + (Decimal(port) + rest);
    assert remainder == requestPath[|SERVER_PATH|..] == Decimal(port) + rest;
    CutOf(Decimal(port), rest);
    ValueOfDecimal(port);
  }

  /** Prefix and upstream path spell the request path exactly if a slash follows the port. */
  lemma ConcatenatesIff(requestPath: string, route: Route)
    requires Splits(requestPath, route)
    ensures HasPrefix(requestPath, SERVER_PATH)
    ensures route.prefix + route.upstreamPath == requestPath <==> '/' in requestPath[|SERVER_PATH|..]
    ensures '/' !in requestPath[|SERVER_PATH|..] ==> route.prefix == requestPath && route.upstreamPath == "/"
  {
    var rest := if route.needsSlash then "" else route.upstreamPath;
    assert SERVER_PATH + Decimal(route.port) + rest == SERVER_PATH + (Decimal(route.port) + rest);
    assert requestPath[|SERVER_PATH|..] == Decimal(route.port) + rest;
    DigitsHaveNoSlash(Decimal(route.port));
    if !route.needsSlash {
      assert (Decimal(route.port) + rest)[|Decimal(route.port)|] == '/';
    }
  }

  lemma DigitsHaveNoSlash(s: string)
    requires AllDigits(s)
    ensures '/' !in s
  {
  }

  /** The prefix of every parsed route is one that the text and cookie rewriters work with. */
  lemma ParsedPrefixMounts(port: nat)
    ensures ProxyRewrite.MountPrefix(SERVER_PATH + Decimal(port))
    ensures ProxyCookie.CookieMount(SERVER_PATH + Decimal(port))
  {
  }
}
