/** The text rewriters that move rooted paths under a project server's mount. */
module ProxyRewrite {
  import opened Text

  predicate IsQuote(c: char) {
    c in {'\'', '"', '`'}
  }

  predicate EndsQuotedPath(c: char) {
    c in {'/', '?', '#', '\'', '"', '`'}
  }

  predicate EndsPath(c: char) {
    c in {'/', '?', '#', '\'', '"', '`', ')', '&', '>', ' '}
  }

  /** What a mount prefix looks like: a rooted path whose text no rewriter acts on. */
  predicate MountPrefix(prefix: string) {
    && |prefix| >= 2 && prefix[0] == '/' && prefix[1] !in {'/', '>'}
    && (forall i :: 0 <= i < |prefix| ==> !IsQuote(prefix[i]) && prefix[i] != '(')
  }

  // ---- Quoted paths ----

  /** A quote right before a rooted path, but not before `//` or `/>`. */
  predicate TargetsQuoted(v: string) {
    |v| >= 2 && IsQuote(v[0]) && v[1] == '/' && (|v| == 2 || v[2] !in {'/', '>'})
  }

  predicate QuotedMounted(path: string, prefix: string) {
    HasPrefix(path, prefix) && (|path| == |prefix| || EndsQuotedPath(path[|prefix|]))
  }

  function RewriteQuoted(v: string, prefix: string): string {
    if v == "" then ""
    else
      var mount := if TargetsQuoted(v) && !QuotedMounted(v[1..], prefix) then prefix else "";
      [v[0]] + mount + RewriteQuoted(v[1..], prefix)
  }

  /** Whether the rewriter inserts the mount after the character at `index`. */
  predicate MountsAfter(value: string, prefix: string, index: nat)
    requires index < |value|
  {
    TargetsQuoted(value[index..]) && !QuotedMounted(value[index + 1..], prefix)
  }

  lemma OneCharacter(value: string, prefix: string, index: nat, output: string)
    requires index < |value|
    ensures output + RewriteQuoted(value[index..], prefix) ==
            Grown(output + [value[index]], MountsAfter(value, prefix, index), prefix)
            + RewriteQuoted(value[index + 1..], prefix)
  {
  }

  function Grown(head: string, mount: bool, prefix: string): string {
    if mount then head + prefix else head
  }

  /** The checks at one character, in order; the first that holds leaves the text alone. */
  method DecideQuoted(value: string, prefix: string, index: nat) returns (mount: bool)
    requires index < |value|
    ensures mount == MountsAfter(value, prefix, index)
  {
    if !IsQuote(value[index]) {
      return false;
    }
    if index + 1 >= |value| || value[index + 1] != '/'
       || (index + 2 < |value| && (value[index + 2] == '/' || value[index + 2] == '>')) {
      return false;
    }
    var remainder := value[index + 1..];
    if HasPrefix(remainder, prefix) {
      var afterPrefix := remainder[|prefix|..];
      if afterPrefix == "" || EndsQuotedPath(afterPrefix[0]) {
        return false;
      }
    }
    return true;
  }

  method RewriteQuotedRootPaths(value: string, prefix: string) returns (output: string)
    ensures output == RewriteQuoted(value, prefix)
  {
    output := "";
    assert value[0..] == value;
    for index := 0 to |value|
      invariant output + RewriteQuoted(value[index..], prefix) == RewriteQuoted(value, prefix)
    {
      OneCharacter(value, prefix, index, output);
      output := output + [value[index]];
      var mount := DecideQuoted(value, prefix, index);
      if mount {
        output := output + prefix;
      }
    }
  }

  /** Every quoted rooted path that the rewriter targets is under the mount. */
  ghost predicate QuotedSettled(v: string, prefix: string) {
    forall i :: 0 <= i < |v| && TargetsQuoted(v[i..]) ==> QuotedMounted(v[i + 1..], prefix)
  }

  lemma {:induction false} SettledQuotedStays(v: string, prefix: string)
    requires QuotedSettled(v, prefix)
    ensures RewriteQuoted(v, prefix) == v
  {
    if v != "" {
      assert v[0..] == v;
      forall i | 0 <= i < |v[1..]| && TargetsQuoted(v[1..][i..])
        ensures QuotedMounted(v[1..][i + 1..], prefix)
      {
        assert v[1..][i..] == v[i + 1..] && v[1..][i + 1..] == v[i + 2..];
      }
      SettledQuotedStays(v[1..], prefix);
      assert v == [v[0]] + v[1..];
    }
  }

  /** Text without quotes is copied, whatever follows it. */
  lemma {:induction false} QuotedCopies(x: string, w: string, prefix: string)
    requires forall i :: 0 <= i < |x| ==> !IsQuote(x[i])
    ensures RewriteQuoted(x + w, prefix) == x + RewriteQuoted(w, prefix)
  {
    if x == "" {
      assert x + w == w && x + RewriteQuoted(w, prefix) == RewriteQuoted(w, prefix);
    } else {
      assert (x + w)[1..] == x[1..] + w;
      QuotedCopies(x[1..], w, prefix);
      assert x + RewriteQuoted(w, prefix) == [x[0]] + (x[1..] + RewriteQuoted(w, prefix));
    }
  }

  lemma QuotedKeepsFirst(v: string, prefix: string)
    ensures |RewriteQuoted(v, prefix)| >= |v|
    ensures v != "" ==> RewriteQuoted(v, prefix)[0] == v[0]
    ensures |v| >= 2 && !IsQuote(v[0]) ==> RewriteQuoted(v, prefix)[1] == v[1]
  {
  }

  /** After a quote that the rewriter leaves alone, the output is left alone too. */
  lemma QuotedHeadSettled(v: string, prefix: string)
    requires MountPrefix(prefix) && v != ""
    requires !TargetsQuoted(v) || QuotedMounted(v[1..], prefix)
    ensures
      var out := [v[0]] + RewriteQuoted(v[1..], prefix);
      TargetsQuoted(out) ==> QuotedMounted(out[1..], prefix)
  {
    QuotedKeepsFirst(v[1..], prefix);
    if TargetsQuoted(v) {
      var after := v[1..][|prefix|..];
      assert v[1..] == prefix + after;
      QuotedCopies(prefix, after, prefix);
      QuotedKeepsFirst(after, prefix);
    }
  }

  /** The output has nothing left to mount. */
  lemma {:induction false} RewrittenQuotedIsSettled(v: string, prefix: string)
    requires MountPrefix(prefix)
    ensures QuotedSettled(RewriteQuoted(v, prefix), prefix)
  {
    if v != "" {
      var rest := RewriteQuoted(v[1..], prefix);
      RewrittenQuotedIsSettled(v[1..], prefix);
      if TargetsQuoted(v) && !QuotedMounted(v[1..], prefix) {
        QuotedKeepsFirst(v[1..], prefix);
        SettledBehindPlain(prefix, rest, prefix);
        var tail := prefix + rest;
        assert tail[..|prefix|] == prefix && tail[|prefix|] == '/';
        SettledFromTail(v[0], tail, prefix);
        assert [v[0]] + tail == RewriteQuoted(v, prefix);
      } else {
        QuotedHeadSettled(v, prefix);
        SettledFromTail(v[0], rest, prefix);
        assert [v[0]] + rest == RewriteQuoted(v, prefix);
      }
    }
  }

  lemma SettledFromTail(c: char, tail: string, prefix: string)
    requires QuotedSettled(tail, prefix)
    requires TargetsQuoted([c] + tail) ==> QuotedMounted(tail, prefix)
    ensures QuotedSettled([c] + tail, prefix)
  {
    var v := [c] + tail;
    forall i | 0 <= i < |v| && TargetsQuoted(v[i..])
      ensures QuotedMounted(v[i + 1..], prefix)
    {
      assert v[1..] == tail && v[i + 1..] == tail[i..];
      if i > 0 {
        assert v[i..] == tail[i - 1..];
      } else {
        assert v[0..] == v;
      }
    }
  }

  lemma SettledBehindPlain(x: string, tail: string, prefix: string)
    requires QuotedSettled(tail, prefix) && forall i :: 0 <= i < |x| ==> !IsQuote(x[i])
    ensures QuotedSettled(x + tail, prefix)
  {
    var v := x + tail;
    forall i | 0 <= i < |v| && TargetsQuoted(v[i..])
      ensures QuotedMounted(v[i + 1..], prefix)
    {
      assert i >= |x|;
      assert v[i..] == tail[i - |x|..] && v[i + 1..] == tail[i - |x| + 1..];
    }
  }

  /** `out` is `v` with the mount put in at some of the places that wait for it, and nothing else changed. */
  ghost predicate OnlyMountsQuoted(v: string, out: string, prefix: string) {
    if v == "" then out == ""
    else
      out != "" && out[0] == v[0] &&
      (|| OnlyMountsQuoted(v[1..], out[1..], prefix)
       || (TargetsQuoted(v) && !QuotedMounted(v[1..], prefix)
           && HasPrefix(out[1..], prefix) && OnlyMountsQuoted(v[1..], out[1..][|prefix|..], prefix)))
  }

  lemma {:induction false} QuotedOnlyMounts(v: string, prefix: string)
    ensures OnlyMountsQuoted(v, RewriteQuoted(v, prefix), prefix)
  {
    if v != "" {
      var out, rest := RewriteQuoted(v, prefix), RewriteQuoted(v[1..], prefix);
      QuotedOnlyMounts(v[1..], prefix);
      if TargetsQuoted(v) && !QuotedMounted(v[1..], prefix) {
        assert out[1..] == prefix + rest && (prefix + rest)[|prefix|..] == rest;
      } else {
        assert out[1..] == rest;
      }
    }
  }

  /** Where the mount goes: behind a quote before a rooted path, but `//` and `/>`, that is not the whole mount yet. */
  lemma MountsAfterIff(value: string, prefix: string, index: nat)
    requires index < |value|
    ensures
      MountsAfter(value, prefix, index) <==>
      && value[index] in {'\'', '"', '`'} && index + 1 < |value| && value[index + 1] == '/'
      && (index + 2 == |value| || value[index + 2] !in {'/', '>'})
      && !(HasPrefix(value[index + 1..], prefix)
           && (index + 1 + |prefix| == |value|
               || value[index + 1 + |prefix|] in {'/', '?', '#', '\'', '"', '`'}))
  {
    if index + 1 < |value| {
      var rest := value[index + 1..];
      assert value[index..] == [value[index]] + rest && rest[0] == value[index + 1];
      assert HasPrefix(rest, prefix) && |rest| > |prefix| ==> rest[|prefix|] == value[index + 1 + |prefix|];
    }
  }

  /** A text is settled when nothing waits for the mount in it. */
  lemma QuotedSettledIff(v: string, prefix: string)
    ensures QuotedSettled(v, prefix) <==> forall i :: 0 <= i < |v| ==> !MountsAfter(v, prefix, i)
  {
    hide TargetsQuoted, QuotedMounted;
    if !QuotedSettled(v, prefix) {
      var i :| 0 <= i < |v| && TargetsQuoted(v[i..]) && !QuotedMounted(v[i + 1..], prefix);
      assert MountsAfter(v, prefix, i);
    }
  }

  /** Rewriting twice is rewriting once. */
  lemma QuotedIsIdempotent(v: string, prefix: string)
    requires MountPrefix(prefix)
    ensures RewriteQuoted(RewriteQuoted(v, prefix), prefix) == RewriteQuoted(v, prefix)
  {
    RewrittenQuotedIsSettled(v, prefix);
    SettledQuotedStays(RewriteQuoted(v, prefix), prefix);
  }

  /** The rewriter changes a text exactly when some targeted path was not under the mount. */
  lemma QuotedUnchangedIff(v: string, prefix: string)
    requires MountPrefix(prefix)
    ensures RewriteQuoted(v, prefix) == v <==> QuotedSettled(v, prefix)
    ensures RewriteQuoted(v, prefix) == v <==> forall i :: 0 <= i < |v| ==> !MountsAfter(v, prefix, i)
  {
    QuotedSettledIff(v, prefix);
    RewrittenQuotedIsSettled(v, prefix);
    if QuotedSettled(v, prefix) {
      SettledQuotedStays(v, prefix);
    }
  }

  // ---- Paths behind a marker, such as `url(` ----

  predicate PathHasProxyPrefix(path: string, prefix: string) {
    HasPrefix(path, prefix) && (|path| == |prefix| || EndsPath(path[|prefix|]))
  }

  predicate AtMarker(v: string, marker: string) {
    HasPrefix(v, marker + "/")
  }

  /** A rooted path that is neither `//` nor under the mount yet. */
  predicate NeedsMount(path: string, prefix: string) {
    !HasPrefix(path, "//") && !PathHasProxyPrefix(path, prefix)
  }

  /** A marker of no path characters that ends in a character no mount prefix holds. */
  predicate MarkerFor(marker: string, prefix: string) {
    && marker != "" && MountPrefix(prefix)
    && (forall i :: 0 <= i < |marker| ==> !EndsPath(marker[i]))
    && (forall i :: 0 <= i < |prefix| ==> prefix[i] != marker[|marker| - 1])
  }

  function Insert(path: string, prefix: string): string {
    if NeedsMount(path, prefix) then prefix else ""
  }

  function RewriteMarker(v: string, marker: string, prefix: string): string {
    if AtMarker(v, marker) then
      marker + Insert(v[|marker|..], prefix) + "/" + RewriteMarker(v[|marker| + 1..], marker, prefix)
    else if v == "" then ""
    else [v[0]] + RewriteMarker(v[1..], marker, prefix)
  }

  ghost predicate NoMarkerBefore(v: string, marker: string, k: nat)
    requires k <= |v|
  {
    forall i :: 0 <= i < k ==> !AtMarker(v[i..], marker)
  }

  /** The first place where the marker stands before a slash, or -1. */
  function IndexMarker(v: string, marker: string): (r: int)
    ensures -1 <= r <= |v|
    ensures r >= 0 ==> AtMarker(v[r..], marker)
    ensures NoMarkerBefore(v, marker, if r < 0 then |v| else r)
  {
    if AtMarker(v, marker) then assert v[0..] == v; 0
    else if v == "" then -1
    else
      var r := IndexMarker(v[1..], marker);
      assert forall i :: 0 < i <= |v| ==> v[1..][i - 1..] == v[i..];
      assert v[0..] == v;
      if r < 0 then -1 else r + 1
  }

  /** Text before the first marker is copied. */
  lemma {:induction false} CopiedUpTo(v: string, marker: string, prefix: string, k: nat)
    requires k <= |v| && NoMarkerBefore(v, marker, k)
    ensures RewriteMarker(v, marker, prefix) == v[..k] + RewriteMarker(v[k..], marker, prefix)
  {
    if k == 0 {
      assert v[0..] == v && v[..0] + RewriteMarker(v, marker, prefix) == RewriteMarker(v, marker, prefix);
    } else {
      NoMarkerFurtherOn(v, marker, k);
      CopiedUpTo(v[1..], marker, prefix, k - 1);
      MovedUp(v, k, RewriteMarker(v[1..][k - 1..], marker, prefix));
    }
  }

  lemma NoMarkerFurtherOn(v: string, marker: string, k: nat)
    requires 0 < k <= |v| && NoMarkerBefore(v, marker, k)
    ensures !AtMarker(v, marker) && NoMarkerBefore(v[1..], marker, k - 1)
  {
    assert v[0..] == v;
    assert forall i :: 0 <= i < k ==> v[1..][i..] == v[i + 1..];
  }

  lemma MovedUp(v: string, k: nat, rest: string)
    requires 0 < k <= |v|
    ensures [v[0]] + (v[1..][..k - 1] + rest) == v[..k] + rest && v[1..][k - 1..] == v[k..]
  {
  }

  /** From one marker to behind the slash that follows it. */
  lemma OneMarker(v: string, marker: string, prefix: string, k: nat, path: string, after: string)
    requires k <= |v| && AtMarker(v[k..], marker) && NoMarkerBefore(v, marker, k)
    requires path == v[k..][|marker|..] && after == v[k..][|marker| + 1..]
    ensures RewriteMarker(v, marker, prefix) ==
            v[..k] + (marker + Insert(path, prefix) + "/" + RewriteMarker(after, marker, prefix))
  {
    CopiedUpTo(v, marker, prefix, k);
  }

  lemma SliceAtMarker(left: string, marker: string, k: nat)
    requires k <= |left| && AtMarker(left[k..], marker)
    ensures k + |marker| < |left| && left[..k + |marker|] == left[..k] + marker
    ensures left[k..][|marker|..] == left[k + |marker|..] && left[k..][|marker| + 1..] == left[k + |marker| + 1..]
  {
  }

  lemma GrownInserts(head: string, path: string, prefix: string)
    ensures Grown(head, NeedsMount(path, prefix), prefix) == head + Insert(path, prefix)
  {
  }

  lemma Regroup(a: string, b: string, c: string, d: string, e: string)
    ensures a + (b + (c + d + "/" + e)) == a + (b + c) + d + "/" + e
  {
  }

  method MountBefore(head: string, path: string, prefix: string) returns (output: string)
    ensures output == Grown(head, NeedsMount(path, prefix), prefix)
    ensures output == if !HasPrefix(path, "//")
                         && !(HasPrefix(path, prefix)
                              && (|path| == |prefix|
                                  || path[|prefix|] in {'/', '?', '#', '\'', '"', '`', ')', '&', '>', ' '}))
                      then head + prefix else head
  {
    output := head;
    if !HasPrefix(path, "//") && !PathHasProxyPrefix(path, prefix) {
      output := output + prefix;
    }
  }

  /** One round of the loop: copy up to the path, mount it if needed, step over its slash. */
  method OneMarkerRound(left: string, marker: string, prefix: string, index: nat, output: string)
    returns (next: string, after: string)
    requires index <= |left| && AtMarker(left[index..], marker) && NoMarkerBefore(left, marker, index)
    ensures index + |marker| < |left| && after == left[index + |marker| + 1..]
    ensures next + RewriteMarker(after, marker, prefix) == output + RewriteMarker(left, marker, prefix)
  {
    SliceAtMarker(left, marker, index);
    var path := left[index + |marker|..];
    after := left[index + |marker| + 1..];
    next := output + left[..index + |marker|];
    next := MountBefore(next, path, prefix);
    next := next + "/";
    OneMarker(left, marker, prefix, index, path, after);
    Regroup(output, left[..index], marker, Insert(path, prefix), RewriteMarker(after, marker, prefix));
    GrownInserts(output + left[..index + |marker|], path, prefix);
  }

  method RewriteUnquotedRootMarker(value: string, marker: string, prefix: string) returns (output: string)
    ensures output == RewriteMarker(value, marker, prefix)
  {
    output := "";
    var left, last := value, 0;
    while true
      invariant last + |left| == |value| && (last == 0 ==> output == "" && left == value)
      invariant output + RewriteMarker(left, marker, prefix) == RewriteMarker(value, marker, prefix)
      decreases |left|
    {
      var index := IndexMarker(left, marker);
      if index < 0 {
        NoMoreMarkers(left, marker, prefix);
        break;
      }
      var next, after := OneMarkerRound(left, marker, prefix, index, output);
      last := last + index + |marker| + 1;
      output, left := next, after;
    }
    if last == 0 {
      return value;
    }
    output := output + left;
  }

  lemma NoMoreMarkers(v: string, marker: string, prefix: string)
    requires NoMarkerBefore(v, marker, |v|)
    ensures RewriteMarker(v, marker, prefix) == v
  {
    CopiedUpTo(v, marker, prefix, |v|);
    assert v[|v|..] == "" && v[..|v|] == v;
    assert v + "" == v;
  }

  /** A text is settled if every marker before a slash stands before `//` or before the whole mount. */
  lemma MarkerSettledIff(v: string, marker: string, prefix: string)
    ensures
      MarkerSettled(v, marker, prefix) <==>
      forall i :: 0 <= i < |v| && HasPrefix(v[i..], marker + "/") ==>
        var path := v[i + |marker|..];
        || HasPrefix(path, "//")
        || (HasPrefix(path, prefix)
            && (|path| == |prefix| || path[|prefix|] in {'/', '?', '#', '\'', '"', '`', ')', '&', '>', ' '}))
  {
  }

  /** Every path behind a marker is under the mount, or is no path on this server. */
  ghost predicate MarkerSettled(v: string, marker: string, prefix: string) {
    forall i :: 0 <= i < |v| && AtMarker(v[i..], marker) ==> !NeedsMount(v[i + |marker|..], prefix)
  }

  lemma {:induction false} SettledMarkerStays(v: string, marker: string, prefix: string)
    requires MarkerSettled(v, marker, prefix)
    ensures RewriteMarker(v, marker, prefix) == v
    decreases |v|
  {
    if v != "" {
      var k := if AtMarker(v, marker) then |marker| + 1 else 1;
      SettledFurtherOn(v, marker, prefix, k);
      SettledMarkerStays(v[k..], marker, prefix);
      if AtMarker(v, marker) {
        MarkerSplit(v, marker);
      }
    }
  }

  lemma MarkerSplit(v: string, marker: string)
    requires AtMarker(v, marker)
    ensures marker + "" + "/" + v[|marker| + 1..] == v
  {
  }

  lemma SettledFurtherOn(v: string, marker: string, prefix: string, k: nat)
    requires MarkerSettled(v, marker, prefix) && 0 < k <= |v|
    ensures MarkerSettled(v[k..], marker, prefix)
    ensures AtMarker(v, marker) ==> !NeedsMount(v[|marker|..], prefix)
  {
    assert v[0..] == v;
    forall i | 0 <= i < |v[k..]| && AtMarker(v[k..][i..], marker)
      ensures !NeedsMount(v[k..][i + |marker|..], prefix)
    {
      assert v[k..][i..] == v[k + i..] && v[k..][i + |marker|..] == v[k + i + |marker|..];
    }
  }

  lemma DiffersAt(v: string, marker: string, j: nat)
    requires j <= |marker| && (j >= |v| || v[j] != (marker + "/")[j])
    ensures !AtMarker(v, marker)
  {
  }

  /** A marker does not occur where text without its last character meets text that starts outside it. */
  lemma NoMarkerInside(x: string, w: string, marker: string, i: nat)
    requires marker != "" && i < |x|
    requires forall j :: 0 <= j < |x| ==> x[j] != marker[|marker| - 1]
    requires w == "" || w[0] !in marker
    ensures !AtMarker((x + w)[i..], marker)
  {
    DiffersAt((x + w)[i..], marker, if i + |marker| - 1 < |x| then |marker| - 1 else |x| - i);
  }

  lemma MarkerCopies(x: string, w: string, marker: string, prefix: string)
    requires marker != ""
    requires forall j :: 0 <= j < |x| ==> x[j] != marker[|marker| - 1]
    requires w == "" || w[0] !in marker
    ensures RewriteMarker(x + w, marker, prefix) == x + RewriteMarker(w, marker, prefix)
  {
    forall i | 0 <= i < |x|
      ensures !AtMarker((x + w)[i..], marker)
    {
      NoMarkerInside(x, w, marker, i);
    }
    CopiedUpTo(x + w, marker, prefix, |x|);
    assert (x + w)[|x|..] == w && (x + w)[..|x|] == x;
  }

  /** Nothing is inserted before a whole marker has passed. */
  lemma {:induction false} MarkerKeepsBeginning(v: string, marker: string, prefix: string)
    ensures
      var out := RewriteMarker(v, marker, prefix);
      && |out| >= |v| && (|v| <= |marker| ==> |out| == |v|)
      && (forall i :: 0 <= i < |v| && i < |marker| ==> out[i] == v[i])
    decreases |v|
  {
    if AtMarker(v, marker) {
      assert v[..|marker|] == marker;
      MarkerKeepsBeginning(v[|marker| + 1..], marker, prefix);
    } else if v != "" {
      MarkerKeepsBeginning(v[1..], marker, prefix);
    }
  }

  lemma NoNewMarker(v: string, marker: string, prefix: string)
    requires v != "" && !AtMarker(v, marker)
    ensures !AtMarker([v[0]] + RewriteMarker(v[1..], marker, prefix), marker)
  {
    MarkerKeepsBeginning(v[1..], marker, prefix);
    SameBeginning(v, RewriteMarker(v[1..], marker, prefix), marker);
  }

  /** Text that begins like text without the marker at its start has none there either. */
  lemma SameBeginning(v: string, tail: string, marker: string)
    requires v != "" && !AtMarker(v, marker)
    requires |v| <= |marker| ==> |tail| < |v|
    requires |v| > |marker| ==> |tail| >= |marker| && forall i :: 0 <= i < |marker| ==> tail[i] == v[1..][i]
    ensures !AtMarker([v[0]] + tail, marker)
  {
    if |v| > |marker| {
      assert v[..|marker| + 1] == ([v[0]] + tail)[..|marker| + 1];
    }
  }

  /** A mounted path is still mounted once the text behind it is rewritten. */
  lemma StillUnderMount(after: string, marker: string, prefix: string)
    requires MarkerFor(marker, prefix) && (after == "" || EndsPath(after[0]))
    ensures PathHasProxyPrefix("/" + RewriteMarker(prefix[1..] + after, marker, prefix), prefix)
  {
    assert after != "" ==> after[0] !in marker;
    MarkerCopies(prefix[1..], after, marker, prefix);
    MarkerKeepsBeginning(after, marker, prefix);
    Mounted(prefix, RewriteMarker(after, marker, prefix));
  }

  lemma Mounted(prefix: string, rest: string)
    requires prefix != "" && prefix[0] == '/' && (rest == "" || EndsPath(rest[0]))
    ensures PathHasProxyPrefix("/" + (prefix[1..] + rest), prefix)
  {
    assert "/" + (prefix[1..] + rest) == prefix + rest;
    assert (prefix + rest)[..|prefix|] == prefix;
  }

  lemma StillDoubled(rest: string, marker: string, prefix: string)
    requires marker != "" && rest != "" && rest[0] == '/'
    ensures HasPrefix("/" + RewriteMarker(rest, marker, prefix), "//")
  {
    MarkerKeepsBeginning(rest, marker, prefix);
    var out := "/" + RewriteMarker(rest, marker, prefix);
    assert out[..2] == "//";
  }

  /** A path that needed no mount still needs none once the text behind it is rewritten. */
  lemma StillMounted(path: string, marker: string, prefix: string)
    requires MarkerFor(marker, prefix) && path != "" && path[0] == '/' && !NeedsMount(path, prefix)
    ensures !NeedsMount("/" + RewriteMarker(path[1..], marker, prefix), prefix)
  {
    if HasPrefix(path, "//") {
      assert path[1] == path[..2][1];
      StillDoubled(path[1..], marker, prefix);
    } else {
      var after := path[|prefix|..];
      assert path[1..] == prefix[1..] + after;
      StillUnderMount(after, marker, prefix);
    }
  }

  lemma MarkerSettledBehind(c: char, tail: string, marker: string, prefix: string)
    requires MarkerSettled(tail, marker, prefix) && !AtMarker([c] + tail, marker)
    ensures MarkerSettled([c] + tail, marker, prefix)
  {
    var v := [c] + tail;
    forall i | 0 <= i < |v| && AtMarker(v[i..], marker)
      ensures !NeedsMount(v[i + |marker|..], prefix)
    {
      assert v[0..] == v;
      assert v[i..] == tail[i - 1..] && v[i + |marker|..] == tail[i - 1 + |marker|..];
    }
  }

  /** A rewritten marker, its path and the settled text behind it. */
  lemma MarkerSettledAt(mid: string, tail: string, marker: string, prefix: string)
    requires MarkerFor(marker, prefix) && MarkerSettled(tail, marker, prefix)
    requires mid == "" || mid == prefix
    requires !NeedsMount(mid + "/" + tail, prefix)
    ensures MarkerSettled(marker + (mid + "/" + tail), marker, prefix)
  {
    var path := mid + "/" + tail;
    var v := marker + path;
    forall i | 0 <= i < |v|
      ensures AtMarker(v[i..], marker) ==> !NeedsMount(v[i + |marker|..], prefix)
    {
      if i == 0 {
        assert v[|marker|..] == path;
      } else if i < |marker| {
        assert v[i..][|marker| - i] == path[0] == '/';
        DiffersAt(v[i..], marker, |marker| - i);
      } else if i < |marker| + |mid| {
        NoMarkerInside(mid, "/" + tail, marker, i - |marker|);
        assert v[i..] == (mid + ("/" + tail))[i - |marker|..];
      } else if i == |marker| + |mid| {
        DiffersAt(v[i..], marker, 0);
      } else {
        var j := i - |marker| - |mid| - 1;
        assert v[i..] == tail[j..];
        if AtMarker(v[i..], marker) {
          assert v[i + |marker|..] == tail[j + |marker|..];
        }
      }
    }
  }

  /** The output has nothing left to mount. */
  lemma {:induction false} RewrittenMarkerIsSettled(v: string, marker: string, prefix: string)
    requires MarkerFor(marker, prefix)
    ensures MarkerSettled(RewriteMarker(v, marker, prefix), marker, prefix)
    decreases |v|
  {
    if AtMarker(v, marker) {
      var path := v[|marker|..];
      PathAfterMarker(v, marker);
      RewrittenMarkerIsSettled(path[1..], marker, prefix);
      MarkerRewritten(path, marker, prefix);
    } else if v != "" {
      RewrittenMarkerIsSettled(v[1..], marker, prefix);
      NoNewMarker(v, marker, prefix);
      MarkerSettledBehind(v[0], RewriteMarker(v[1..], marker, prefix), marker, prefix);
    }
  }

  lemma PathAfterMarker(v: string, marker: string)
    requires AtMarker(v, marker)
    ensures
      var path := v[|marker|..];
      path != "" && path[0] == '/' && path[1..] == v[|marker| + 1..]
  {
    assert v[|marker|] == v[..|marker| + 1][|marker|];
  }

  lemma MarkerRewritten(path: string, marker: string, prefix: string)
    requires MarkerFor(marker, prefix) && path != "" && path[0] == '/'
    requires MarkerSettled(RewriteMarker(path[1..], marker, prefix), marker, prefix)
    ensures MarkerSettled(marker + Insert(path, prefix) + "/" + RewriteMarker(path[1..], marker, prefix),
                          marker, prefix)
  {
    var mid, tail := Insert(path, prefix), RewriteMarker(path[1..], marker, prefix);
    if NeedsMount(path, prefix) {
      assert (prefix + "/" + tail)[..|prefix|] == prefix;
    } else {
      StillMounted(path, marker, prefix);
      assert mid + "/" + tail == "/" + tail;
    }
    MarkerSettledAt(mid, tail, marker, prefix);
    assert marker + (mid + "/" + tail) == marker + mid + "/" + tail;
  }

  /** `out` is `v` with the mount put in at some of the places that wait for it, and nothing else changed. */
  ghost predicate OnlyMountsMarker(v: string, out: string, marker: string, prefix: string) {
    if AtMarker(v, marker) then
      || (AtMarker(out, marker) && OnlyMountsMarker(v[|marker| + 1..], out[|marker| + 1..], marker, prefix))
      || (NeedsMount(v[|marker|..], prefix) && HasPrefix(out, marker + prefix + "/")
          && OnlyMountsMarker(v[|marker| + 1..], out[|marker| + |prefix| + 1..], marker, prefix))
    else if v == "" then out == ""
    else out != "" && out[0] == v[0] && OnlyMountsMarker(v[1..], out[1..], marker, prefix)
  }

  lemma {:induction false} MarkerOnlyMounts(v: string, marker: string, prefix: string)
    ensures OnlyMountsMarker(v, RewriteMarker(v, marker, prefix), marker, prefix)
    decreases |v|
  {
    var out := RewriteMarker(v, marker, prefix);
    if AtMarker(v, marker) {
      MarkerOnlyMounts(v[|marker| + 1..], marker, prefix);
      var rest := RewriteMarker(v[|marker| + 1..], marker, prefix);
      if NeedsMount(v[|marker|..], prefix) {
        Behind(marker + prefix + "/", rest);
      } else {
        Behind(marker + "/", rest);
        assert marker + "" + "/" + rest == marker + "/" + rest;
      }
    } else if v != "" {
      MarkerOnlyMounts(v[1..], marker, prefix);
      assert out[1..] == RewriteMarker(v[1..], marker, prefix);
    }
  }

  lemma Behind(head: string, rest: string)
    ensures HasPrefix(head + rest, head) && (head + rest)[|head|..] == rest
  {
  }

  /** Rewriting twice is rewriting once. */
  lemma MarkerIsIdempotent(v: string, marker: string, prefix: string)
    requires MarkerFor(marker, prefix)
    ensures RewriteMarker(RewriteMarker(v, marker, prefix), marker, prefix) == RewriteMarker(v, marker, prefix)
  {
    RewrittenMarkerIsSettled(v, marker, prefix);
    SettledMarkerStays(RewriteMarker(v, marker, prefix), marker, prefix);
  }

  /** The rewriter changes a text exactly when some path behind a marker needed the mount. */
  lemma MarkerUnchangedIff(v: string, marker: string, prefix: string)
    requires MarkerFor(marker, prefix)
    ensures RewriteMarker(v, marker, prefix) == v <==> MarkerSettled(v, marker, prefix)
  {
    RewrittenMarkerIsSettled(v, marker, prefix);
    if MarkerSettled(v, marker, prefix) {
      SettledMarkerStays(v, marker, prefix);
    }
  }

  /** The marker of style sheets fits every mount prefix. */
  lemma UrlMarkerFits(prefix: string)
    requires MountPrefix(prefix)
    ensures MarkerFor("url(", prefix)
  {
  }
}
