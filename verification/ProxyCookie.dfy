/** Cookies of a project server, moved under its mount. */
module ProxyCookie {
  import opened Text
  import opened Wrappers

  /** A mount prefix as a cookie path: rooted, without separators or spaces. */
  predicate CookieMount(prefix: string) {
    && prefix != "" && prefix[0] == '/'
    && forall i :: 0 <= i < |prefix| ==> prefix[i] != ';' && !IsSpace(prefix[i])
  }

  /** The mount itself or a path below it. */
  predicate Under(path: string, prefix: string) {
    path == prefix || HasPrefix(path, prefix + "/")
  }

  function Split(s: string, separator: char): (parts: seq<string>)
    ensures parts != []
  {
    if s == "" then [""]
    else
      var rest := Split(s[1..], separator);
      if s[0] == separator then [""] + rest else [[s[0]] + rest[0]] + rest[1..]
  }

  /** The text without the leading and trailing characters of a set. */
  function Trim(s: string, cutset: set<char>): string
    decreases |s|
  {
    if s == "" then ""
    else if s[0] in cutset then Trim(s[1..], cutset)
    else if s[|s| - 1] in cutset then Trim(s[..|s| - 1], cutset)
    else s
  }

  predicate IsLoopbackHost(host: string) {
    var name := Trim(ToLower(host), {'[', ']'});
    name == "localhost" || name == "127.0.0.1" || name == "::1"
  }

  predicate IsPath(attribute: string) {
    HasPrefix(ToLower(attribute), "path=")
  }

  predicate IsDomain(attribute: string) {
    HasPrefix(ToLower(attribute), "domain=")
  }

  /** The path that a `Path` attribute is given. */
  function MountedPath(given: string, prefix: string): string {
    var path := TrimSpace(given);
    var rooted := if path == "" then "/" else if !HasPrefix(path, "/") then "/" + path else path;
    if Under(rooted, prefix) then rooted else prefix + rooted
  }

  /** What becomes of one trimmed attribute: kept, replaced or dropped. */
  function Rewritten(attribute: string, prefix: string): seq<string> {
    if IsPath(attribute) then ["Path=" + MountedPath(attribute[5..], prefix)]
    else if IsDomain(attribute) && IsLoopbackHost(Trim(TrimSpace(attribute[7..]), {'.'})) then []
    else [attribute]
  }

  function Attributes(parts: seq<string>, prefix: string): seq<string> {
    if parts == [] then []
    else Attributes(parts[..|parts| - 1], prefix) + Rewritten(TrimSpace(parts[|parts| - 1]), prefix)
  }

  predicate NamesPath(parts: seq<string>) {
    exists i :: 0 <= i < |parts| && IsPath(TrimSpace(parts[i]))
  }

  /** A cookie without a path of its own gets the mount's. */
  function AddedPart(parts: seq<string>, prefix: string): seq<string> {
    if NamesPath(parts) then [] else ["Path=" + prefix + "/"]
  }

  function CookieParts(value: string, prefix: string): (parts: seq<string>)
    ensures parts != []
  {
    var split := Split(value, ';');
    [TrimSpace(split[0])] + Attributes(split[1..], prefix) + AddedPart(split[1..], prefix)
  }

  function Cookie(value: string, prefix: string): string {
    Join(CookieParts(value, prefix), "; ")
  }

  method RewriteAttribute(attribute: string, prefix: string) returns (kept: seq<string>, isPath: bool)
    ensures kept == Rewritten(attribute, prefix) && isPath == IsPath(attribute)
  {
    var lower := ToLower(attribute);
    isPath := HasPrefix(lower, "path=");
    if isPath {
      var cookiePath := TrimSpace(attribute[5..]);
      if cookiePath == "" {
        cookiePath := "/";
      }
      if !HasPrefix(cookiePath, "/") {
        cookiePath := "/" + cookiePath;
      }
      if cookiePath != prefix && !HasPrefix(cookiePath, prefix + "/") {
        cookiePath := prefix + cookiePath;
      }
      kept := ["Path=" + cookiePath];
    } else if HasPrefix(lower, "domain=") {
      var domain := Trim(TrimSpace(attribute[7..]), {'.'});
      kept := if !IsLoopbackHost(domain) then [attribute] else [];
    } else {
      kept := [attribute];
    }
  }

  method RewriteProjectCookie(value: string, prefix: string) returns (cookie: string)
    ensures cookie == Cookie(value, prefix)
  {
    var parts := Split(value, ';');
    var attributes, sawPath := RewriteAttributes(parts[1..], prefix);
    var result := [TrimSpace(parts[0])] + attributes;
    if !sawPath {
      result := result + ["Path=" + prefix + "/"];
    } else {
      assert result + [] == result;
    }
    return Join(result, "; ");
  }

  method RewriteAttributes(rest: seq<string>, prefix: string) returns (result: seq<string>, sawPath: bool)
    ensures result == Attributes(rest, prefix) && sawPath == NamesPath(rest)
  {
    result := [];
    sawPath := false;
    for i := 0 to |rest|
      invariant result == Attributes(rest[..i], prefix)
      invariant sawPath <==> NamesPath(rest[..i])
    {
      var kept, isPath := RewriteAttribute(TrimSpace(rest[i]), prefix);
      assert rest[..i + 1][..i] == rest[..i] && rest[..i + 1][i] == rest[i];
      NamesPathOneMore(rest[..i + 1]);
      result := result + kept;
      sawPath := sawPath || isPath;
    }
    assert rest[..|rest|] == rest;
  }

  lemma NamesPathOneMore(parts: seq<string>)
    requires parts != []
    ensures NamesPath(parts) <==> NamesPath(parts[..|parts| - 1]) || IsPath(TrimSpace(parts[|parts| - 1]))
  {
  }

  /** `name` stands at the start of the attribute, letters in either case. */
  lemma PathAttributeIff(attribute: string)
    ensures IsPath(attribute) <==>
            && |attribute| >= 5 && attribute[0] in {'P', 'p'} && attribute[1] in {'A', 'a'}
            && attribute[2] in {'T', 't'} && attribute[3] in {'H', 'h'} && attribute[4] == '='
  {
    var lower := ToLower(attribute);
    if |lower| >= 5 {
      assert lower[..5] == [lower[0], lower[1], lower[2], lower[3], lower[4]];
    }
  }

  lemma DomainAttributeIff(attribute: string)
    ensures IsDomain(attribute) <==>
            && |attribute| >= 7 && attribute[0] in {'D', 'd'} && attribute[1] in {'O', 'o'}
            && attribute[2] in {'M', 'm'} && attribute[3] in {'A', 'a'} && attribute[4] in {'I', 'i', '\U{130}'}
            && attribute[5] in {'N', 'n'} && attribute[6] == '='
  {
    var lower := ToLower(attribute);
    if |lower| >= 7 {
      assert lower[..7] == [lower[0], lower[1], lower[2], lower[3], lower[4], lower[5], lower[6]];
    }
  }

  /** The one piece without characters of the set at its ends, and nothing but such characters around it. */
  lemma {:induction false} TrimMeans(s: string, cutset: set<char>, i: nat, j: nat)
    requires i <= j <= |s| && (i == j ==> i == |s|)
    requires forall k :: 0 <= k < |s| && (k < i || j <= k) ==> s[k] in cutset
    requires i < j ==> s[i] !in cutset && s[j - 1] !in cutset
    ensures Trim(s, cutset) == s[i..j]
    decreases |s|
  {
    if s == "" {
      assert s[i..j] == "";
    } else if s[0] in cutset {
      assert i > 0 && s[1..][i - 1..j - 1] == s[i..j];
      TrimMeans(s[1..], cutset, i - 1, j - 1);
    } else if s[|s| - 1] in cutset {
      TrimMeans(s[..|s| - 1], cutset, i, j);
      assert s[..|s| - 1][i..j] == s[i..j];
    } else {
      assert i == 0 && j == |s|;
    }
  }

  lemma {:induction false} TrimDrops(s: string, cutset: set<char>) returns (i: nat, j: nat)
    ensures i <= j <= |s| && (i == j ==> i == |s|) && Trim(s, cutset) == s[i..j]
    ensures forall k :: 0 <= k < |s| && (k < i || j <= k) ==> s[k] in cutset
    ensures i < j ==> s[i] !in cutset && s[j - 1] !in cutset
    decreases |s|
  {
    if s == "" {
      i, j := 0, 0;
    } else if s[0] in cutset {
      var a, b := TrimDrops(s[1..], cutset);
      i, j := a + 1, b + 1;
      assert s[1..][a..b] == s[i..j];
      assert forall k :: 0 < k < |s| ==> s[k] == s[1..][k - 1];
    } else if s[|s| - 1] in cutset {
      i, j := TrimDrops(s[..|s| - 1], cutset);
      assert i == 0 && i < j by {
        assert s[..|s| - 1] != "" && s[..|s| - 1][0] == s[0];
      }
      assert s[..|s| - 1][i..j] == s[i..j];
    } else {
      i, j := 0, |s|;
    }
  }

  lemma LowerPiece(host: string, i: nat, j: nat)
    requires i <= j <= |host|
    ensures ToLower(host[i..j]) == ToLower(host)[i..j]
    ensures forall k :: 0 <= k < |host| ==> (host[k] in {'[', ']'} <==> ToLower(host)[k] in {'[', ']'})
  {
  }

  lemma LoopbackName(host: string, i: int, j: int)
    requires Around(host, i, j, {'[', ']'}) && ToLower(host[i..j]) in {"localhost", "127.0.0.1", "::1"}
    ensures IsLoopbackHost(host)
  {
    var lower, name := ToLower(host), ToLower(host[i..j]);
    LowerPiece(host, i, j);
    assert name[0] == lower[i] && name[|name| - 1] == lower[j - 1];
    TrimMeans(lower, {'[', ']'}, i, j);
  }

  /** A loopback host is one of three names, letters in either case, with brackets around it or not. */
  lemma LoopbackHostIff(host: string)
    ensures IsLoopbackHost(host) <==>
            exists i, j :: Around(host, i, j, {'[', ']'}) && ToLower(host[i..j]) in {"localhost", "127.0.0.1", "::1"}
  {
    if IsLoopbackHost(host) {
      var i, j := TrimDrops(ToLower(host), {'[', ']'});
      LowerPiece(host, i, j);
      assert Around(host, i, j, {'[', ']'});
    }
    if i, j :| Around(host, i, j, {'[', ']'}) && ToLower(host[i..j]) in {"localhost", "127.0.0.1", "::1"} {
      LoopbackName(host, i, j);
    }
  }

  /** A loopback domain is a loopback host that dots may surround. */
  lemma LocalDomainIff(attribute: string)
    requires IsDomain(attribute)
    ensures
      var domain := TrimSpace(attribute[7..]);
      IsLocalDomain(attribute) <==>
      exists i, j :: Around(domain, i, j, {'.'}) && i < j && domain[i] != '.' && domain[j - 1] != '.'
                     && IsLoopbackHost(domain[i..j])
  {
    var domain := TrimSpace(attribute[7..]);
    if IsLocalDomain(attribute) {
      var i, j := TrimDrops(domain, {'.'});
      assert Around(domain, i, j, {'.'});
      assert domain[i..i] == "";
    }
    if i, j :| Around(domain, i, j, {'.'}) && i < j && domain[i] != '.' && domain[j - 1] != '.'
               && IsLoopbackHost(domain[i..j]) {
      TrimMeans(domain, {'.'}, i, j);
    }
  }

  /** A given path is trimmed and rooted, and gets the mount in front of it unless it lies under the mount. */
  lemma MountedPathMeans(given: string, prefix: string)
    requires CookieMount(prefix)
    ensures
      var path := TrimSpace(given);
      MountedPath(given, prefix) ==
      if path == "" then (if prefix == "/" then "/" else prefix + "/")
      else if path[0] != '/' then
        (if "/" + path == prefix || HasPrefix("/" + path, prefix + "/") then "/" + path else prefix + "/" + path)
      else if path == prefix || HasPrefix(path, prefix + "/") then path
      else prefix + path
  {
    var path := TrimSpace(given);
    if path != "" && path[0] != '/' {
      assert prefix + ("/" + path) == prefix + "/" + path;
    }
    if path != "" {
      assert path[..1] == [path[0]];
    }
  }

  // ---- What the rewriter looks for ----

  /** Around this piece of the text there are only characters of the set. */
  ghost predicate Around(s: string, i: int, j: int, cutset: set<char>) {
    0 <= i <= j <= |s| && forall k :: 0 <= k < |s| && (k < i || j <= k) ==> s[k] in cutset
  }

  // ---- Every path is under the mount ----

  lemma MountedPathIsUnder(given: string, prefix: string)
    requires CookieMount(prefix)
    ensures Under(MountedPath(given, prefix), prefix) && MountedPath(given, prefix)[0] == '/'
  {
  }

  /** Section 5.1.4 of RFC 6265: when a cookie with this path goes with a request. */
  predicate PathMatches(requestPath: string, cookiePath: string) {
    || requestPath == cookiePath
    || (HasPrefix(requestPath, cookiePath)
        && ((cookiePath != "" && cookiePath[|cookiePath| - 1] == '/')
            || (|requestPath| > |cookiePath| && requestPath[|cookiePath|] == '/')))
  }

  lemma MatchesOnlyUnder(requestPath: string, cookiePath: string, prefix: string)
    requires Under(cookiePath, prefix) && CookieMount(prefix) && prefix[|prefix| - 1] != '/'
    requires PathMatches(requestPath, cookiePath)
    ensures Under(requestPath, prefix)
  {
  }

  lemma PathIsSpelled(path: string)
    ensures IsPath("Path=" + path) && ("Path=" + path)[5..] == path
  {
  }

  /** An attribute that the cookie is given: a path under the mount, or no path. */
  predicate Placed(attribute: string, prefix: string) {
    IsPath(attribute) ==> Under(attribute[5..], prefix)
  }

  lemma {:induction false} AttributesArePlaced(parts: seq<string>, prefix: string)
    requires CookieMount(prefix)
    ensures forall i :: 0 <= i < |Attributes(parts, prefix)| ==> Placed(Attributes(parts, prefix)[i], prefix)
  {
    if parts != [] {
      AttributesArePlaced(parts[..|parts| - 1], prefix);
      var last := TrimSpace(parts[|parts| - 1]);
      if IsPath(last) {
        MountedPathIsUnder(last[5..], prefix);
        PathIsSpelled(MountedPath(last[5..], prefix));
      }
    }
  }

  /** Every `Path` that the rewriter emits takes the cookie only to requests under the mount. */
  lemma EmittedPathsStayUnder(value: string, prefix: string, i: nat, requestPath: string)
    requires CookieMount(prefix) && prefix[|prefix| - 1] != '/'
    requires 1 <= i < |CookieParts(value, prefix)| && IsPath(CookieParts(value, prefix)[i])
    requires PathMatches(requestPath, CookieParts(value, prefix)[i][5..])
    ensures Under(requestPath, prefix)
  {
    AttributesArePlaced(Split(value, ';')[1..], prefix);
    PathIsSpelled(prefix + "/");
    assert (prefix + "/")[..|prefix| + 1] == prefix + "/";
    var attribute := CookieParts(value, prefix)[i];
    assert Placed(attribute, prefix);
    MatchesOnlyUnder(requestPath, attribute[5..], prefix);
  }

  /** The attributes that are no path, in order. */
  function NoPaths(attributes: seq<string>): seq<string> {
    if attributes == [] then []
    else
      var last := attributes[|attributes| - 1];
      NoPaths(attributes[..|attributes| - 1]) + if IsPath(last) then [] else [last]
  }

  predicate IsLocalDomain(attribute: string) {
    IsDomain(attribute) && IsLoopbackHost(Trim(TrimSpace(attribute[7..]), {'.'}))
  }

  /** The trimmed parts that are neither a path nor a loopback domain, in order. */
  function Others(parts: seq<string>): seq<string> {
    if parts == [] then []
    else
      var last := TrimSpace(parts[|parts| - 1]);
      Others(parts[..|parts| - 1]) + if IsPath(last) || IsLocalDomain(last) then [] else [last]
  }

  /** Besides paths and loopback domains every attribute is kept, in order, and none is added. */
  lemma {:induction false} OthersAreKept(parts: seq<string>, prefix: string)
    ensures NoPaths(Attributes(parts, prefix)) == Others(parts)
    ensures |Attributes(parts, prefix)| <= |parts|
  {
    if parts != [] {
      var n := |parts| - 1;
      var before, last := Attributes(parts[..n], prefix), TrimSpace(parts[n]);
      OthersAreKept(parts[..n], prefix);
      if IsPath(last) {
        PathIsSpelled(MountedPath(last[5..], prefix));
      }
      var kept := Rewritten(last, prefix);
      if kept == [] {
        assert before + kept == before;
      } else {
        assert kept == [kept[0]] && (before + [kept[0]])[..|before|] == before;
      }
    }
  }

  // ---- Rewriting twice ----

  /** No space at either end. */
  predicate Tight(s: string) {
    s == "" || (!IsSpace(s[0]) && !IsSpace(s[|s| - 1]))
  }

  predicate Free(s: string, c: char) {
    forall i :: 0 <= i < |s| ==> s[i] != c
  }

  lemma {:induction false} TrimRightTight(s: string, c: char)
    ensures TrimRight(s) != "" ==> !IsSpace(TrimRight(s)[|TrimRight(s)| - 1]) && s != "" && TrimRight(s)[0] == s[0]
    ensures Free(s, c) ==> Free(TrimRight(s), c)
  {
    if s != "" && IsSpace(s[|s| - 1]) {
      TrimRightTight(s[..|s| - 1], c);
    }
  }

  lemma {:induction false} TrimLeftFree(s: string, c: char)
    ensures Free(s, c) ==> Free(TrimLeft(s), c)
  {
    if s != "" && IsSpace(s[0]) {
      TrimLeftFree(s[1..], c);
    }
  }

  lemma TrimIsTight(s: string, c: char)
    ensures Tight(TrimSpace(s)) && (Free(s, c) ==> Free(TrimSpace(s), c))
  {
    TrimLeftMeans(s);
    TrimLeftFree(s, c);
    TrimRightTight(TrimLeft(s), c);
  }

  lemma TightStays(s: string)
    requires Tight(s)
    ensures TrimSpace(s) == s && TrimSpace(" " + s) == s
  {
  }

  ghost predicate AllFree(parts: seq<string>) {
    forall i :: 0 <= i < |parts| ==> Free(parts[i], ';')
  }

  lemma {:induction false} SplitIsFree(s: string)
    ensures AllFree(Split(s, ';')) && AllFree(Split(s, ';')[1..])
  {
    if s != "" {
      SplitIsFree(s[1..]);
    }
  }

  function Spaced(parts: seq<string>): seq<string> {
    seq(|parts|, i requires 0 <= i < |parts| => " " + parts[i])
  }

  lemma {:induction false} SplitBehind(a: string, c: char, s: string)
    requires Free(a, c)
    ensures Split(a + [c] + s, c) == [a] + Split(s, c)
  {
    var whole := a + [c] + s;
    if a == "" {
      assert whole[1..] == s;
    } else {
      assert whole[1..] == a[1..] + [c] + s;
      SplitBehind(a[1..], c, s);
      assert [a[0]] + a[1..] == a;
    }
  }

  lemma {:induction false} SplitFree(a: string, c: char)
    requires Free(a, c)
    ensures Split(a, c) == [a]
  {
    if a != "" {
      SplitFree(a[1..], c);
      assert [a[0]] + a[1..] == a;
    }
  }

  lemma SplitFirst(first: string, rest: string)
    requires Free(first, ';')
    ensures Split(first + "; " + rest, ';') == [first] + Split(" " + rest, ';')
    ensures Split(" " + (first + "; " + rest), ';') == [" " + first] + Split(" " + rest, ';')
  {
    assert first + "; " + rest == first + [';'] + (" " + rest);
    SplitBehind(first, ';', " " + rest);
    assert " " + (first + "; " + rest) == (" " + first) + [';'] + (" " + rest);
    SplitBehind(" " + first, ';', " " + rest);
  }

  lemma {:induction false} SplitJoined(parts: seq<string>)
    requires parts != [] && AllFree(parts)
    ensures Split(Join(parts, "; "), ';') == [parts[0]] + Spaced(parts[1..])
    ensures Split(" " + Join(parts, "; "), ';') == Spaced(parts)
  {
    if |parts| == 1 {
      SplitFree(parts[0], ';');
      SplitFree(" " + parts[0], ';');
    } else {
      SplitJoined(parts[1..]);
      SplitFirst(parts[0], Join(parts[1..], "; "));
      assert Spaced(parts) == [" " + parts[0]] + Spaced(parts[1..]);
    }
  }

  /** Rewriting leaves this attribute as it is. */
  predicate Settled(attribute: string, prefix: string) {
    Tight(attribute) && Free(attribute, ';') && Rewritten(attribute, prefix) == [attribute]
  }

  lemma MountedPathTight(given: string, prefix: string)
    requires CookieMount(prefix) && Free(given, ';')
    ensures Tight(MountedPath(given, prefix)) && Free(MountedPath(given, prefix), ';')
  {
    TrimIsTight(given, ';');
  }

  lemma PathIsSettled(path: string, prefix: string)
    requires CookieMount(prefix) && path != "" && path[0] == '/'
    requires Under(path, prefix) && Tight(path) && Free(path, ';')
    ensures Settled("Path=" + path, prefix)
  {
    PathIsSpelled(path);
    TightStays(path);
    assert path[..1] == "/";
  }

  ghost predicate AllSettled(attributes: seq<string>, prefix: string) {
    forall i :: 0 <= i < |attributes| ==> Settled(attributes[i], prefix)
  }

  predicate AnyPath(attributes: seq<string>) {
    exists i :: 0 <= i < |attributes| && IsPath(attributes[i])
  }

  lemma RewrittenIsSettled(part: string, prefix: string)
    requires CookieMount(prefix) && Free(part, ';')
    ensures AllSettled(Rewritten(TrimSpace(part), prefix), prefix)
    ensures AnyPath(Rewritten(TrimSpace(part), prefix)) <==> IsPath(TrimSpace(part))
  {
    TrimIsTight(part, ';');
    var attribute := TrimSpace(part);
    if IsPath(attribute) {
      MountedPathIsUnder(attribute[5..], prefix);
      MountedPathTight(attribute[5..], prefix);
      PathIsSettled(MountedPath(attribute[5..], prefix), prefix);
      PathIsSpelled(MountedPath(attribute[5..], prefix));
      assert IsPath(Rewritten(attribute, prefix)[0]);
    }
  }

  lemma Together(xs: seq<string>, ys: seq<string>, prefix: string)
    ensures AllSettled(xs, prefix) && AllSettled(ys, prefix) ==> AllSettled(xs + ys, prefix)
    ensures AnyPath(xs + ys) <==> AnyPath(xs) || AnyPath(ys)
  {
    if i :| 0 <= i < |xs| && IsPath(xs[i]) {
      assert IsPath((xs + ys)[i]);
    }
    if i :| 0 <= i < |ys| && IsPath(ys[i]) {
      assert IsPath((xs + ys)[|xs| + i]);
    }
  }

  lemma {:induction false} AttributesAreSettled(parts: seq<string>, prefix: string)
    requires CookieMount(prefix) && AllFree(parts)
    ensures AllSettled(Attributes(parts, prefix), prefix)
    ensures NamesPath(parts) <==> AnyPath(Attributes(parts, prefix))
  {
    if parts != [] {
      var n := |parts| - 1;
      AttributesAreSettled(parts[..n], prefix);
      RewrittenIsSettled(parts[n], prefix);
      NamesPathOneMore(parts);
      Together(Attributes(parts[..n], prefix), Rewritten(TrimSpace(parts[n]), prefix), prefix);
    }
  }

  lemma {:induction false} SettledAttributesStay(attributes: seq<string>, prefix: string)
    requires AllSettled(attributes, prefix)
    ensures Attributes(Spaced(attributes), prefix) == attributes
  {
    if attributes != [] {
      var n := |attributes| - 1;
      SettledAttributesStay(attributes[..n], prefix);
      SpacedSplits(attributes);
      TightStays(attributes[n]);
    }
  }

  lemma SpacedSplits(attributes: seq<string>)
    requires attributes != []
    ensures
      var n := |attributes| - 1;
      && |Spaced(attributes)| == n + 1 && Spaced(attributes)[..n] == Spaced(attributes[..n])
      && Spaced(attributes)[n] == " " + attributes[n] && attributes == attributes[..n] + [attributes[n]]
  {
  }

  lemma NamesPathSpaced(attributes: seq<string>, prefix: string)
    requires AllSettled(attributes, prefix)
    ensures NamesPath(Spaced(attributes)) <==> AnyPath(attributes)
  {
    forall i | 0 <= i < |attributes|
      ensures TrimSpace(Spaced(attributes)[i]) == attributes[i]
    {
      TightStays(attributes[i]);
    }
  }

  /** All attributes of a rewritten cookie are settled, and one of them is a path. */
  lemma PartsAreSettled(value: string, prefix: string)
    requires CookieMount(prefix)
    ensures
      var parts := CookieParts(value, prefix);
      Tight(parts[0]) && Free(parts[0], ';') && AllSettled(parts[1..], prefix) && AnyPath(parts[1..])
  {
    var split := Split(value, ';');
    SplitIsFree(value);
    TrimIsTight(split[0], ';');
    BuiltIsSettled(split[1..], prefix);
    TailOf(TrimSpace(split[0]), Attributes(split[1..], prefix), AddedPart(split[1..], prefix));
  }

  lemma BuiltIsSettled(rest: seq<string>, prefix: string)
    requires CookieMount(prefix) && AllFree(rest)
    ensures AllSettled(Attributes(rest, prefix) + AddedPart(rest, prefix), prefix)
    ensures AnyPath(Attributes(rest, prefix) + AddedPart(rest, prefix))
  {
    AttributesAreSettled(rest, prefix);
    AddedIsSettled(rest, prefix);
    Together(Attributes(rest, prefix), AddedPart(rest, prefix), prefix);
  }

  lemma TailOf(first: string, middle: seq<string>, added: seq<string>)
    ensures ([first] + middle + added)[1..] == middle + added
  {
  }

  lemma AddedIsSettled(parts: seq<string>, prefix: string)
    requires CookieMount(prefix)
    ensures AllSettled(AddedPart(parts, prefix), prefix)
    ensures AnyPath(AddedPart(parts, prefix)) <==> !NamesPath(parts)
  {
    AddedPath(prefix);
    if !NamesPath(parts) {
      assert IsPath(AddedPart(parts, prefix)[0]);
    }
  }

  lemma AddedPath(prefix: string)
    requires CookieMount(prefix)
    ensures Settled("Path=" + prefix + "/", prefix) && IsPath("Path=" + prefix + "/")
  {
    var path := prefix + "/";
    assert path[..|path|] == path && !IsSpace('/');
    PathIsSettled(path, prefix);
    PathIsSpelled(path);
    assert "Path=" + path == "Path=" + prefix + "/";
  }

  /** Rewriting twice is rewriting once. */
  lemma CookieIsIdempotent(value: string, prefix: string)
    requires CookieMount(prefix)
    ensures Cookie(Cookie(value, prefix), prefix) == Cookie(value, prefix)
  {
    PartsAreSettled(value, prefix);
    SettledPartsStay(CookieParts(value, prefix), prefix);
  }

  lemma SettledPartsStay(parts: seq<string>, prefix: string)
    requires parts != [] && Tight(parts[0]) && Free(parts[0], ';')
    requires AllSettled(parts[1..], prefix) && AnyPath(parts[1..])
    ensures CookieParts(Join(parts, "; "), prefix) == parts
  {
    AllOfThemFree(parts, prefix);
    SplitJoined(parts);
    HeadAndTail(parts[0], Spaced(parts[1..]));
    TightStays(parts[0]);
    SettledAttributesStay(parts[1..], prefix);
    NamesPathSpaced(parts[1..], prefix);
    Reassembled(parts);
  }

  lemma HeadAndTail(first: string, rest: seq<string>)
    ensures ([first] + rest)[0] == first && ([first] + rest)[1..] == rest
  {
  }

  lemma Reassembled(parts: seq<string>)
    requires parts != []
    ensures [parts[0]] + parts[1..] + [] == parts
  {
  }

  lemma AllOfThemFree(parts: seq<string>, prefix: string)
    requires parts != [] && Free(parts[0], ';') && AllSettled(parts[1..], prefix)
    ensures AllFree(parts)
  {
  }

  // ---- What a browser makes of the attributes ----

  predicate IsWsp(c: char) {
    c == ' ' || c == '\t'
  }

  function TrimWsp(s: string): string
    decreases |s|
  {
    if s == "" then ""
    else if IsWsp(s[0]) then TrimWsp(s[1..])
    else if IsWsp(s[|s| - 1]) then TrimWsp(s[..|s| - 1])
    else s
  }

  /** The text up to the first equals sign. */
  function BeforeEquals(s: string): string {
    if s == "" || s[0] == '=' then "" else [s[0]] + BeforeEquals(s[1..])
  }

  function AfterEquals(s: string): string {
    if s == "" then "" else if s[0] == '=' then s[1..] else AfterEquals(s[1..])
  }

  /** Section 5.2 of RFC 6265 trims the name, so it also takes `Path =/x` and a bare `Path` for a path. */
  predicate BrowserSeesPath(attribute: string) {
    ToLower(TrimWsp(BeforeEquals(attribute))) == "path"
  }

  function BrowserValue(attribute: string): string {
    TrimWsp(AfterEquals(attribute))
  }

  /** Section 5.3 of RFC 6265: of several path attributes the last one counts. */
  function LastPath(attributes: seq<string>): Option<string> {
    if attributes == [] then None
    else
      var last := attributes[|attributes| - 1];
      if BrowserSeesPath(last) then Some(BrowserValue(last)) else LastPath(attributes[..|attributes| - 1])
  }

  /** Section 5.2.4 of RFC 6265: an empty or unrooted value stands for the default path. */
  function PathOrDefault(path: Option<string>, defaultPath: string): string {
    if path.Some? && HasPrefix(path.value, "/") then path.value else defaultPath
  }

  /** The path under which a browser keeps a cookie. */
  function CookiePath(cookie: string, defaultPath: string): string {
    PathOrDefault(LastPath(Split(cookie, ';')[1..]), defaultPath)
  }

  /** Section 5.1.4 of RFC 6265: the default path of a cookie that a response to this request sets. */
  function DefaultPath(requestPath: string): string {
    if !HasPrefix(requestPath, "/") || Directory(requestPath) == "" then "/" else Directory(requestPath)
  }

  /** The text in front of the last slash. */
  function Directory(path: string): string {
    if path == "" then ""
    else if path[|path| - 1] == '/' then path[..|path| - 1]
    else Directory(path[..|path| - 1])
  }

  /** The last part that a browser takes for a path is one the rewriter recognizes, or lies under the mount as it is. */
  predicate LastPathIsFine(parts: seq<string>, prefix: string, defaultPath: string) {
    if parts == [] then Under(defaultPath, prefix)
    else
      var last := TrimSpace(parts[|parts| - 1]);
      if IsPath(last) then true
      else if BrowserSeesPath(last) then Under(PathOrDefault(Some(BrowserValue(last)), defaultPath), prefix)
      else LastPathIsFine(parts[..|parts| - 1], prefix, defaultPath)
  }

  lemma {:induction false} NameUpTo(s: string, k: nat)
    requires k < |s| && s[k] == '=' && forall i :: 0 <= i < k ==> s[i] != '='
    ensures BeforeEquals(s) == s[..k]
  {
    if k > 0 {
      NameUpTo(s[1..], k - 1);
    }
  }

  lemma {:induction false} ValueFrom(s: string, k: nat)
    requires k < |s| && s[k] == '=' && forall i :: 0 <= i < k ==> s[i] != '='
    ensures AfterEquals(s) == s[k + 1..]
  {
    if k > 0 {
      ValueFrom(s[1..], k - 1);
    }
  }

  lemma BrowserSeesEmitted(path: string)
    requires path != "" && Tight(path)
    ensures BrowserSeesPath("Path=" + path) && BrowserValue("Path=" + path) == path
  {
    var a := "Path=" + path;
    assert a[4] == '=' && a[0] == 'P' && a[1] == 'a' && a[2] == 't' && a[3] == 'h';
    NameUpTo(a, 4);
    ValueFrom(a, 4);
    assert a[..4] == "Path" && a[5..] == path && ToLower("Path") == "path";
  }

  lemma DomainIsNoPath(attribute: string)
    requires IsDomain(attribute)
    ensures !BrowserSeesPath(attribute)
  {
    var lower := ToLower(attribute);
    assert forall i :: 0 <= i < 7 ==> Lower(attribute[i]) == lower[i] == lower[..7][i] == "domain="[i];
    NameUpTo(attribute, 6);
    var name := attribute[..6];
    assert Lower(name[0]) == 'd' && Lower(name[5]) == 'n';
    assert TrimWsp(name) == name && |ToLower(name)| == 6;
  }

  lemma {:induction false} LastPathOfConcat(xs: seq<string>, ys: seq<string>)
    ensures LastPath(xs + ys) == if LastPath(ys).Some? then LastPath(ys) else LastPath(xs)
  {
    hide BrowserSeesPath, BrowserValue;
    if ys == [] {
      assert xs + ys == xs;
    } else {
      assert (xs + ys)[..|xs + ys| - 1] == xs + ys[..|ys| - 1];
      LastPathOfConcat(xs, ys[..|ys| - 1]);
    }
  }

  lemma LastPathOfOne(attribute: string)
    ensures LastPath([attribute]) == if BrowserSeesPath(attribute) then Some(BrowserValue(attribute)) else None
  {
    hide BrowserSeesPath, BrowserValue;
    assert [attribute][..0] == [];
  }

  /** The space that the rewriter puts behind a separator makes no difference. */
  lemma SpacedIsSeenAlike(attribute: string)
    ensures BrowserSeesPath(" " + attribute) == BrowserSeesPath(attribute)
    ensures BrowserValue(" " + attribute) == BrowserValue(attribute)
  {
    var spaced := " " + attribute;
    assert spaced[1..] == attribute;
    var name := BeforeEquals(spaced);
    assert name == " " + BeforeEquals(attribute) && name[1..] == BeforeEquals(attribute);
  }

  lemma {:induction false} SpacedLastPath(attributes: seq<string>)
    ensures LastPath(Spaced(attributes)) == LastPath(attributes)
  {
    hide BrowserSeesPath, BrowserValue;
    if attributes != [] {
      SpacedLastPath(attributes[..|attributes| - 1]);
      SpacedSplits(attributes);
      SpacedIsSeenAlike(attributes[|attributes| - 1]);
    }
  }

  /** What a browser sees in the rewritten form of one attribute. */
  function SeenPath(attribute: string, prefix: string): Option<string> {
    if IsPath(attribute) then Some(MountedPath(attribute[5..], prefix))
    else if BrowserSeesPath(attribute) then Some(BrowserValue(attribute))
    else None
  }

  lemma SeenInRewritten(attribute: string, prefix: string)
    requires CookieMount(prefix) && Free(attribute, ';')
    ensures LastPath(Rewritten(attribute, prefix)) == SeenPath(attribute, prefix)
  {
    hide BrowserSeesPath, BrowserValue, LastPath;
    if IsPath(attribute) {
      var path := MountedPath(attribute[5..], prefix);
      MountedPathIsUnder(attribute[5..], prefix);
      MountedPathTight(attribute[5..], prefix);
      BrowserSeesEmitted(path);
      LastPathOfOne("Path=" + path);
    } else {
      LastPathOfOne(attribute);
      if IsLocalDomain(attribute) {
        DomainIsNoPath(attribute);
        NoLastPath();
      }
    }
  }

  lemma NoLastPath()
    ensures LastPath([]) == None
  {
  }

  lemma SeenIsFine(attribute: string, prefix: string, defaultPath: string)
    requires CookieMount(prefix) && SeenPath(attribute, prefix).Some?
    ensures Under(PathOrDefault(SeenPath(attribute, prefix), defaultPath), prefix) <==>
            IsPath(attribute) || Under(PathOrDefault(Some(BrowserValue(attribute)), defaultPath), prefix)
  {
    if IsPath(attribute) {
      MountedPathIsUnder(attribute[5..], prefix);
      var path := MountedPath(attribute[5..], prefix);
      assert path[..1] == "/";
    }
  }

  lemma {:induction false} AttributesKeepPathIff(parts: seq<string>, prefix: string, defaultPath: string)
    requires CookieMount(prefix) && AllFree(parts)
    ensures Under(PathOrDefault(LastPath(Attributes(parts, prefix)), defaultPath), prefix) <==>
            LastPathIsFine(parts, prefix, defaultPath)
    ensures NamesPath(parts) ==> LastPath(Attributes(parts, prefix)).Some?
  {
    hide BrowserSeesPath, BrowserValue, LastPath, Under, Rewritten, IsPath, TrimSpace;
    if parts == [] {
      NoLastPath();
    } else {
      var n, last := |parts| - 1, TrimSpace(parts[|parts| - 1]);
      AttributesKeepPathIff(parts[..n], prefix, defaultPath);
      TrimIsTight(parts[n], ';');
      NamesPathOneMore(parts);
      SeenInRewritten(last, prefix);
      LastPathOfConcat(Attributes(parts[..n], prefix), Rewritten(last, prefix));
      if SeenPath(last, prefix).Some? {
        SeenIsFine(last, prefix, defaultPath);
      }
    }
  }

  /** A browser parses the rewritten cookie into the attributes that the rewriter put together. */
  lemma CookiePathOfParts(value: string, prefix: string, defaultPath: string)
    requires CookieMount(prefix)
    ensures CookiePath(Cookie(value, prefix), defaultPath) ==
            PathOrDefault(LastPath(CookieParts(value, prefix)[1..]), defaultPath)
  {
    hide LastPath, CookieParts, Settled, AnyPath;
    var parts := CookieParts(value, prefix);
    PartsAreSettled(value, prefix);
    AllOfThemFree(parts, prefix);
    SplitJoined(parts);
    HeadAndTail(parts[0], Spaced(parts[1..]));
    SpacedLastPath(parts[1..]);
  }

  /**
   A browser keeps the rewritten cookie under the mount exactly if no part named a path to the rewriter, which then
   adds one, or the last part that names one to the browser is recognized or lies under the mount as it is.
   */
  lemma CookieStaysUnderIff(value: string, prefix: string, defaultPath: string)
    requires CookieMount(prefix)
    ensures
      var parts := Split(value, ';')[1..];
      Under(CookiePath(Cookie(value, prefix), defaultPath), prefix) <==>
      !NamesPath(parts) || LastPathIsFine(parts, prefix, defaultPath)
  {
    hide LastPath, LastPathIsFine, Attributes, Cookie, CookiePath, NamesPath;
    var split := Split(value, ';');
    var parts, attributes := split[1..], Attributes(split[1..], prefix);
    SplitIsFree(value);
    CookiePathOfParts(value, prefix, defaultPath);
    AttributesKeepPathIff(parts, prefix, defaultPath);
    TailOf(TrimSpace(split[0]), attributes, AddedPart(parts, prefix));
    LastPathOfConcat(attributes, AddedPart(parts, prefix));
    AddedIsSeen(prefix);
    NoLastPath();
  }

  lemma AddedIsSeen(prefix: string)
    requires CookieMount(prefix)
    ensures LastPath(["Path=" + prefix + "/"]) == Some(prefix + "/") && Under(prefix + "/", prefix)
            && HasPrefix(prefix + "/", "/")
  {
    var path := prefix + "/";
    assert path[..|path|] == path && path[..1] == "/" && !IsSpace('/');
    BrowserSeesEmitted(path);
    assert "Path=" + path == "Path=" + prefix + "/";
    LastPathOfOne("Path=" + path);
  }

  /** The default path of a request below the mount is under it, so only a rooted path can leave it. */
  lemma {:induction false} DefaultStaysUnder(requestPath: string, prefix: string)
    requires CookieMount(prefix) && HasPrefix(requestPath, prefix + "/")
    ensures Under(DefaultPath(requestPath), prefix) && Directory(requestPath) == DefaultPath(requestPath)
  {
    var n := |requestPath| - 1;
    if requestPath == prefix + "/" {
      assert requestPath[..n] == prefix && requestPath[n] == '/';
    } else if requestPath[n] == '/' {
      assert requestPath[..n][..|prefix| + 1] == prefix + "/";
    } else {
      assert requestPath[..n][..|prefix| + 1] == prefix + "/";
      DefaultStaysUnder(requestPath[..n], prefix);
    }
  }

  /**
   Part `i` is the last that names a path to either side, only the browser sees it, and it is rooted outside the
   mount.
   */
  ghost predicate EscapesAt(parts: seq<string>, i: nat, prefix: string)
    requires i < |parts|
  {
    var path := BrowserValue(TrimSpace(parts[i]));
    && BrowserSeesPath(TrimSpace(parts[i])) && HasPrefix(path, "/") && !Under(path, prefix)
    && forall j :: i <= j < |parts| ==>
         !IsPath(TrimSpace(parts[j])) && (j > i ==> !BrowserSeesPath(TrimSpace(parts[j])))
  }

  ghost predicate Escapes(parts: seq<string>, prefix: string) {
    exists i :: 0 <= i < |parts| && EscapesAt(parts, i, prefix)
  }

  lemma EscapesOneMore(parts: seq<string>, prefix: string)
    requires parts != []
    ensures
      var n, last := |parts| - 1, TrimSpace(parts[|parts| - 1]);
      Escapes(parts, prefix) <==>
      && !IsPath(last)
      && if BrowserSeesPath(last) then HasPrefix(BrowserValue(last), "/") && !Under(BrowserValue(last), prefix)
         else Escapes(parts[..n], prefix)
  {
    hide BrowserSeesPath, BrowserValue, IsPath, TrimSpace, Under, HasPrefix;
    var n, last := |parts| - 1, TrimSpace(parts[|parts| - 1]);
    assert forall j :: 0 <= j < n ==> parts[..n][j] == parts[j];
    if i :| 0 <= i < |parts| && EscapesAt(parts, i, prefix) {
      assert !IsPath(TrimSpace(parts[n]));
      assert i < n ==> EscapesAt(parts[..n], i, prefix);
    }
    if !IsPath(last) && !BrowserSeesPath(last) && Escapes(parts[..n], prefix) {
      var i :| 0 <= i < n && EscapesAt(parts[..n], i, prefix);
      forall j | i <= j < |parts|
        ensures !IsPath(TrimSpace(parts[j])) && (j > i ==> !BrowserSeesPath(TrimSpace(parts[j])))
      {
        assert j < n ==> parts[j] == parts[..n][j];
      }
      assert EscapesAt(parts, i, prefix);
    }
    if !IsPath(last) && BrowserSeesPath(last) && HasPrefix(BrowserValue(last), "/")
      && !Under(BrowserValue(last), prefix) {
      assert EscapesAt(parts, n, prefix);
    }
  }

  lemma {:induction false} FineUnlessEscaping(parts: seq<string>, prefix: string, defaultPath: string)
    requires Under(defaultPath, prefix)
    ensures LastPathIsFine(parts, prefix, defaultPath) <==> !Escapes(parts, prefix)
  {
    hide BrowserSeesPath, BrowserValue, IsPath, TrimSpace, Under, Escapes;
    if parts == [] {
      NothingEscapes(prefix);
    } else {
      FineUnlessEscaping(parts[..|parts| - 1], prefix, defaultPath);
      EscapesOneMore(parts, prefix);
    }
  }

  lemma NothingEscapes(prefix: string)
    ensures !Escapes([], prefix)
  {
  }

  /**
   For a request below the mount: the cookie leaves the mount exactly if the rewriter sees some path but not the last
   one.
   */
  lemma CookieLeavesIff(value: string, prefix: string, requestPath: string)
    requires CookieMount(prefix) && HasPrefix(requestPath, prefix + "/")
    ensures
      var parts := Split(value, ';')[1..];
      !Under(CookiePath(Cookie(value, prefix), DefaultPath(requestPath)), prefix) <==>
      NamesPath(parts) && Escapes(parts, prefix)
  {
    hide LastPathIsFine, Cookie, CookiePath, NamesPath, Escapes, Under, DefaultPath;
    DefaultStaysUnder(requestPath, prefix);
    CookieStaysUnderIff(value, prefix, DefaultPath(requestPath));
    FineUnlessEscaping(Split(value, ';')[1..], prefix, DefaultPath(requestPath));
  }

  /** A path that the rewriter does not recognize decides for the browser if it comes behind one that it does. */
  lemma UnrecognizedDecides(first: string, a: string, b: string, prefix: string, defaultPath: string)
    requires CookieMount(prefix) && AllFree([first, a, b]) && Tight(a) && Tight(b)
    requires IsPath(a) && !IsPath(b) && !IsDomain(b) && BrowserSeesPath(b) && HasPrefix(BrowserValue(b), "/")
    ensures CookiePath(Cookie(first + "; " + (a + "; " + b), prefix), defaultPath) == BrowserValue(b)
  {
    hide BrowserSeesPath, BrowserValue, IsPath, IsDomain, TrimSpace, LastPath, Cookie;
    var value := first + "; " + (a + "; " + b);
    SplitOfThree(first, a, b);
    var parts := [" " + a, " " + b];
    TightStays(a);
    TightStays(b);
    assert IsPath(TrimSpace(parts[0])) && NamesPath(parts);
    assert parts[..1] == [" " + a];
    assert Attributes(parts, prefix) == Attributes(parts[..1], prefix) + [b];
    LastPathOfConcat(Attributes(parts[..1], prefix), [b]);
    LastPathOfOne(b);
    CookiePathOfParts(value, prefix, defaultPath);
    TailOf(TrimSpace(first), Attributes(parts, prefix), []);
    assert Attributes(parts, prefix) + [] == Attributes(parts, prefix);
  }

  lemma SplitOfThree(first: string, a: string, b: string)
    requires AllFree([first, a, b])
    ensures Split(first + "; " + (a + "; " + b), ';') == [first] + [" " + a, " " + b]
    ensures ([first] + [" " + a, " " + b])[1..] == [" " + a, " " + b]
  {
    assert [first, a, b][0] == first && [first, a, b][1] == a && [first, a, b][2] == b;
    SplitFirst(first, a + "; " + b);
    SplitFirst(a, b);
    SplitFree(" " + b, ';');
  }

  /** With a space before the equals sign a path passes the rewriter, and the cookie leaves the mount. */
  lemma SpacedPathEscapes(prefix: string, defaultPath: string)
    requires CookieMount(prefix) && prefix != "/"
    ensures CookiePath(Cookie("a=b; Path=/x; Path =/", prefix), defaultPath) == "/" && !Under("/", prefix)
  {
    hide LastPath, Cookie, CookiePath, BrowserSeesPath, BrowserValue;
    var first, a, b := "a=b", "Path=/x", "Path =/";
    SpacedPathIsSeen();
    PathIsSpelled("/x");
    assert "Path=" + "/x" == a && first + "; " + (a + "; " + b) == "a=b; Path=/x; Path =/";
    UnrecognizedDecides(first, a, b, prefix, defaultPath);
  }

  lemma SpacedPathIsSeen()
    ensures BrowserSeesPath("Path =/") && BrowserValue("Path =/") == "/" && !IsPath("Path =/") && !IsDomain("Path =/")
  {
    var a := "Path =/";
    NameUpTo(a, 5);
    ValueFrom(a, 5);
    assert a[..5] == "Path " && AfterEquals(a) == "/";
    SpacedName();
    var lower := ToLower(a);
    assert lower[4] == ' ' && lower[0] == 'p' && |lower| == 7;
    assert lower[..5][4] != "path="[4] && lower[..7][0] != "domain="[0];
    assert TrimWsp("/") == "/";
  }

  lemma SpacedName()
    ensures TrimWsp("Path ") == "Path" && ToLower("Path") == "path"
  {
    var spaced := "Path ";
    assert spaced[..4] == "Path" && TrimWsp("Path") == "Path";
    assert !IsWsp(spaced[0]) && IsWsp(spaced[4]);
  }
}
