/** Absolute paths as the sandbox builder compares, cleans and orders them. */
module SandboxPaths {
  import opened Text
  import opened Wrappers

  datatype Listing = Listed(paths: seq<string>) | ContainsNul | NotAbsolute

  /** A rooted path that ends in no slash, unless it is the root itself. */
  predicate Canonical(p: string) {
    p == "/" || (|p| >= 2 && p[0] == '/' && p[|p| - 1] != '/')
  }

  predicate IsFilesystemRoot(p: string) {
    p == "/"
  }

  predicate Within(p: string, root: string) {
    root == "/" || p == root || HasPrefix(p, root + "/")
  }

  predicate WithinAny(p: string, roots: seq<string>) {
    exists i :: 0 <= i < |roots| && Within(p, roots[i])
  }

  method PathWithinAny(p: string, roots: seq<string>) returns (found: bool)
    ensures found <==> WithinAny(p, roots)
  {
    for i := 0 to |roots|
      invariant forall j :: 0 <= j < i ==> !Within(p, roots[j])
    {
      if Within(p, roots[i]) {
        return true;
      }
    }
    return false;
  }

  /** A path lies within a root if it is the root or goes on behind it with a slash; all lie within "/". */
  lemma WithinIff(p: string, root: string)
    ensures Within(p, root) <==>
            || root == "/" || p == root
            || (|root| < |p| && p[|root|] == '/' && forall i :: 0 <= i < |root| ==> p[i] == root[i])
  {
    if |root| < |p| {
      assert p[..|root| + 1] == p[..|root|] + [p[|root|]];
      assert (forall i :: 0 <= i < |root| ==> p[i] == root[i]) ==> p[..|root|] == root;
      if HasPrefix(p, root + "/") {
        assert forall i :: 0 <= i <= |root| ==> p[i] == (root + "/")[i];
      }
    }
  }

  // ---- The order: fewer slashes first, then by text ----

  function Slashes(p: string): nat {
    if p == "" then 0 else (if p[0] == '/' then 1 else 0) + Slashes(p[1..])
  }

  predicate TextLess(a: string, b: string) {
    if b == "" then false
    else if a == "" then true
    else a[0] < b[0] || (a[0] == b[0] && TextLess(a[1..], b[1..]))
  }

  predicate Before(a: string, b: string) {
    Slashes(a) < Slashes(b) || (Slashes(a) == Slashes(b) && TextLess(a, b))
  }

  lemma {:induction false} TextLessTotal(a: string, b: string)
    ensures a != b ==> TextLess(a, b) || TextLess(b, a)
    ensures !TextLess(a, a)
    ensures TextLess(a, b) ==> !TextLess(b, a)
  {
    if a != "" {
      TextLessTotal(a[1..], if b == "" then "" else b[1..]);
      assert b != "" && a[0] == b[0] && a[1..] == b[1..] ==> a == [a[0]] + a[1..] == b;
    }
  }

  lemma {:induction false} TextLessTransitive(a: string, b: string, c: string)
    requires TextLess(a, b) && TextLess(b, c)
    ensures TextLess(a, c)
  {
    if a != "" && a[0] == b[0] && b[0] == c[0] {
      TextLessTransitive(a[1..], b[1..], c[1..]);
    }
  }

  lemma {:induction false} SlashesCount(p: string)
    ensures Slashes(p) == multiset(p)['/']
  {
    if p != "" {
      SlashesCount(p[1..]);
      assert p == [p[0]] + p[1..];
    }
  }

  /** Text order: the first difference decides, and a beginning comes before what goes on. */
  lemma {:induction false} TextLessIff(a: string, b: string)
    ensures TextLess(a, b) <==>
            exists k :: 0 <= k <= |a| && k < |b| && a[..k] == b[..k] && (k == |a| || a[k] < b[k])
  {
    if a == "" || b == "" {
      assert a == "" && b != "" ==> a[..0] == b[..0];
    } else {
      TextLessIff(a[1..], b[1..]);
      if a[0] < b[0] {
        assert a[..0] == b[..0];
      } else if TextLess(a, b) {
        var k :| 0 <= k <= |a[1..]| && k < |b[1..]| && a[1..][..k] == b[1..][..k]
                 && (k == |a[1..]| || a[1..][k] < b[1..][k]);
        assert a[..k + 1] == [a[0]] + a[1..][..k] && b[..k + 1] == [b[0]] + b[1..][..k];
      } else {
        forall k | 0 < k <= |a| && k < |b| && a[..k] == b[..k]
          ensures a[0] == b[0] && a[1..][..k - 1] == b[1..][..k - 1]
        {
          assert a[0] == a[..k][0] == b[..k][0] == b[0];
          assert a[1..][..k - 1] == a[..k][1..] == b[..k][1..] == b[1..][..k - 1];
        }
      }
    }
  }

  /** The order of the list: the number of slashes decides, and then the text. */
  lemma BeforeIff(a: string, b: string)
    ensures Before(a, b) <==>
            || multiset(a)['/'] < multiset(b)['/']
            || (multiset(a)['/'] == multiset(b)['/']
                && exists k :: 0 <= k <= |a| && k < |b| && a[..k] == b[..k] && (k == |a| || a[k] < b[k]))
  {
    SlashesCount(a);
    SlashesCount(b);
    TextLessIff(a, b);
  }

  lemma BeforeTotal(a: string, b: string)
    ensures a != b ==> Before(a, b) || Before(b, a)
    ensures !Before(a, a) && (Before(a, b) ==> !Before(b, a))
  {
    TextLessTotal(a, b);
    TextLessTotal(a, a);
  }

  lemma BeforeTransitive(a: string, b: string, c: string)
    requires Before(a, b) && Before(b, c)
    ensures Before(a, c)
  {
    if Slashes(a) == Slashes(b) == Slashes(c) {
      TextLessTransitive(a, b, c);
    }
  }

  lemma {:induction false} SlashesAdd(a: string, b: string)
    ensures Slashes(a + b) == Slashes(a) + Slashes(b)
  {
    if a == "" {
      assert a + b == b;
    } else {
      assert (a + b)[1..] == a[1..] + b;
      SlashesAdd(a[1..], b);
    }
  }

  lemma {:induction false} PrefixLess(a: string, b: string)
    requires HasPrefix(b, a) && a != b
    ensures TextLess(a, b)
  {
    if a != "" {
      assert b[1..][..|a| - 1] == b[..|a|][1..];
      assert b == [b[0]] + b[1..] && a == [a[0]] + a[1..] && a[0] == b[..|a|][0];
      PrefixLess(a[1..], b[1..]);
    }
  }

  /** A proper ancestor comes first. */
  lemma AncestorIsBefore(p: string, root: string)
    requires Canonical(p) && Canonical(root) && Within(p, root) && p != root
    ensures Before(root, p)
  {
    if root == "/" {
      assert p == ["/"[0]] + p[1..] && HasPrefix(p, root);
      PrefixLess(root, p);
    } else {
      var rest := p[|root| + 1..];
      assert p == root + "/" + rest;
      SlashesAdd(root + "/", rest);
      SlashesAdd(root, "/");
    }
  }

  // ---- Cleaned lists ----

  ghost predicate StrictlySorted(s: seq<string>) {
    forall i, j :: 0 <= i < j < |s| ==> Before(s[i], s[j])
  }

  function Elements(s: seq<string>): set<string> {
    set i | 0 <= i < |s| :: s[i]
  }

  /** Put a path at its place in a sorted list. */
  function Insert(p: string, s: seq<string>): seq<string> {
    if s == [] then [p]
    else if p == s[0] then s
    else if Before(p, s[0]) then [p] + s
    else [s[0]] + Insert(p, s[1..])
  }

  lemma {:induction false} InsertElements(p: string, s: seq<string>)
    ensures Elements(Insert(p, s)) == Elements(s) + {p}
  {
    if s != [] && p != s[0] {
      HeadElement(s[0], s[1..]);
      assert s == [s[0]] + s[1..];
      if Before(p, s[0]) {
        HeadElement(p, s);
      } else {
        InsertElements(p, s[1..]);
        HeadElement(s[0], Insert(p, s[1..]));
      }
    } else if s != [] {
      assert s[0] in Elements(s);
    } else {
      HeadElement(p, []);
      assert [p] + [] == [p];
    }
  }

  lemma HeadElement(x: string, s: seq<string>)
    ensures Elements([x] + s) == {x} + Elements(s)
  {
    forall y | y in {x} + Elements(s)
      ensures y in Elements([x] + s)
    {
      if y == x {
        assert ([x] + s)[0] == y;
      } else {
        var i :| 0 <= i < |s| && s[i] == y;
        assert ([x] + s)[i + 1] == y;
      }
    }
  }

  lemma HeadSorted(x: string, s: seq<string>)
    requires StrictlySorted(s) && forall y :: y in Elements(s) ==> Before(x, y)
    ensures StrictlySorted([x] + s)
  {
  }

  lemma TailSorted(s: seq<string>)
    requires StrictlySorted(s) && s != []
    ensures StrictlySorted(s[1..]) && forall y :: y in Elements(s[1..]) ==> Before(s[0], y)
  {
  }

  lemma {:induction false} InsertSorted(p: string, s: seq<string>)
    requires StrictlySorted(s)
    ensures StrictlySorted(Insert(p, s))
  {
    if s != [] && p != s[0] {
      TailSorted(s);
      if Before(p, s[0]) {
        forall y | y in Elements(s)
          ensures Before(p, y)
        {
          if y != s[0] {
            var i :| 0 <= i < |s| && s[i] == y;
            BeforeTransitive(p, s[0], y);
          }
        }
        HeadSorted(p, s);
      } else {
        InsertSorted(p, s[1..]);
        InsertElements(p, s[1..]);
        BeforeTotal(p, s[0]);
        HeadSorted(s[0], Insert(p, s[1..]));
      }
    }
  }

  /** A sorted list is determined by its elements. */
  lemma {:induction false} SortedIsUnique(a: seq<string>, b: seq<string>)
    requires StrictlySorted(a) && StrictlySorted(b) && Elements(a) == Elements(b)
    ensures a == b
  {
    NoElements(a);
    NoElements(b);
    if a != [] {
      FirstIsLeast(a, b);
      TailSorted(a);
      TailSorted(b);
      TailElements(a);
      TailElements(b);
      SortedIsUnique(a[1..], b[1..]);
      assert a == [a[0]] + a[1..] && b == [b[0]] + b[1..];
    }
  }

  lemma NoElements(s: seq<string>)
    ensures Elements(s) == {} <==> s == []
  {
    if s != [] {
      assert s[0] in Elements(s);
    }
  }

  lemma FirstIsLeast(a: seq<string>, b: seq<string>)
    requires StrictlySorted(a) && StrictlySorted(b) && Elements(a) == Elements(b) && a != [] && b != []
    ensures a[0] == b[0]
  {
    assert a[0] in Elements(b) && b[0] in Elements(a);
    var i :| 0 <= i < |b| && b[i] == a[0];
    var j :| 0 <= j < |a| && a[j] == b[0];
    BeforeTotal(a[0], b[0]);
  }

  lemma TailElements(s: seq<string>)
    requires StrictlySorted(s) && s != []
    ensures Elements(s[1..]) == Elements(s) - {s[0]}
  {
    TailSorted(s);
    BeforeTotal(s[0], s[0]);
    HeadElement(s[0], s[1..]);
    assert s == [s[0]] + s[1..];
  }

  predicate HasNul(p: string) {
    exists i :: 0 <= i < |p| && p[i] == '\0'
  }

  predicate IsAbs(p: string) {
    p != "" && p[0] == '/'
  }

  /** What is wrong with a list of paths, if anything: the first fault in order. */
  function Fault(paths: seq<string>): Option<Listing> {
    if paths == [] then None
    else
      var before, last := Fault(paths[..|paths| - 1]), paths[|paths| - 1];
      if before.Some? || last == "" then before
      else if HasNul(last) then Some(ContainsNul)
      else if !IsAbs(last) then Some(NotAbsolute)
      else None
  }

  /** The cleaned paths, sorted, each once. */
  function Cleaned(paths: seq<string>, clean: string -> string): seq<string> {
    if paths == [] then []
    else
      var before, last := Cleaned(paths[..|paths| - 1], clean), paths[|paths| - 1];
      if last == "" then before else Insert(clean(last), before)
  }

  lemma {:induction false} CleanedIsSorted(paths: seq<string>, clean: string -> string)
    ensures StrictlySorted(Cleaned(paths, clean))
    ensures Elements(Cleaned(paths, clean)) == set i | 0 <= i < |paths| && paths[i] != "" :: clean(paths[i])
  {
    if paths != [] {
      var n := |paths| - 1;
      CleanedIsSorted(paths[..n], clean);
      if paths[n] != "" {
        InsertSorted(clean(paths[n]), Cleaned(paths[..n], clean));
        InsertElements(clean(paths[n]), Cleaned(paths[..n], clean));
      }
      OneMoreCleaned(paths, clean);
    }
  }

  lemma OneMoreCleaned(paths: seq<string>, clean: string -> string)
    requires paths != []
    ensures
      var n := |paths| - 1;
      (set i | 0 <= i < |paths| && paths[i] != "" :: clean(paths[i])) ==
      (set i | 0 <= i < n && paths[..n][i] != "" :: clean(paths[..n][i]))
      + if paths[n] != "" then {clean(paths[n])} else {}
  {
  }

  method SortPaths(unique: set<string>) returns (result: seq<string>)
    ensures StrictlySorted(result) && Elements(result) == unique
  {
    result := [];
    var todo := unique;
    while todo != {}
      invariant todo <= unique
      invariant StrictlySorted(result) && Elements(result) == unique - todo
      decreases |todo|
    {
      var p :| p in todo;
      InsertSorted(p, result);
      InsertElements(p, result);
      result := Insert(p, result);
      todo := todo - {p};
    }
  }

  /** A list is faulty if one of its paths is, and the first one says why. */
  lemma {:induction false} FaultIff(paths: seq<string>)
    ensures Fault(paths).None? <==> forall i :: 0 <= i < |paths| ==> !Faulty(paths[i])
    ensures
      Fault(paths).Some? ==>
        exists i :: 0 <= i < |paths| && Faulty(paths[i]) && (forall j :: 0 <= j < i ==> !Faulty(paths[j]))
          && Fault(paths).value == if '\0' in paths[i] then ContainsNul else NotAbsolute
  {
    if paths != [] {
      var n := |paths| - 1;
      FaultIff(paths[..n]);
      assert forall i :: 0 <= i < n ==> paths[..n][i] == paths[i];
      if Fault(paths[..n]).Some? {
        var i :| 0 <= i < n && Faulty(paths[..n][i]) && (forall j :: 0 <= j < i ==> !Faulty(paths[..n][j]))
          && Fault(paths[..n]).value == if '\0' in paths[..n][i] then ContainsNul else NotAbsolute;
        assert Faulty(paths[i]);
      } else {
        assert HasNul(paths[n]) <==> '\0' in paths[n];
      }
    }
  }

  /** The listing is sorted and holds the cleaned form of every path that is given, and nothing else. */
  lemma CleanedMeans(paths: seq<string>, clean: string -> string, p: string)
    ensures p in Cleaned(paths, clean) <==> exists i :: 0 <= i < |paths| && paths[i] != "" && clean(paths[i]) == p
    ensures StrictlySorted(Cleaned(paths, clean))
  {
    CleanedIsSorted(paths, clean);
    assert p in Cleaned(paths, clean) <==> p in Elements(Cleaned(paths, clean));
  }

  /** A path that is given and has a NUL or no slash in front. */
  ghost predicate Faulty(p: string) {
    p != "" && ('\0' in p || p[0] != '/')
  }

  method CleanAbsolutePaths(paths: seq<string>, clean: string -> string) returns (r: Listing)
    ensures r == if Fault(paths).Some? then Fault(paths).value else Listed(Cleaned(paths, clean))
  {
    var unique: set<string> := {};
    for i := 0 to |paths|
      invariant Fault(paths[..i]).None?
      invariant unique == Elements(Cleaned(paths[..i], clean))
    {
      assert paths[..i + 1][..i] == paths[..i] && paths[..i + 1][i] == paths[i];
      if paths[i] == "" {
        continue;
      }
      if HasNul(paths[i]) {
        FaultStays(paths, i + 1);
        return ContainsNul;
      }
      if !IsAbs(paths[i]) {
        FaultStays(paths, i + 1);
        return NotAbsolute;
      }
      InsertElements(clean(paths[i]), Cleaned(paths[..i], clean));
      unique := unique + {clean(paths[i])};
    }
    assert paths[..|paths|] == paths;
    var result := SortPaths(unique);
    CleanedIsSorted(paths, clean);
    SortedIsUnique(result, Cleaned(paths, clean));
    return Listed(result);
  }

  lemma {:induction false} FaultStays(paths: seq<string>, k: nat)
    requires k <= |paths| && Fault(paths[..k]).Some?
    ensures Fault(paths) == Fault(paths[..k])
  {
    if k == |paths| {
      assert paths[..k] == paths;
    } else {
      assert paths[..|paths| - 1][..k] == paths[..k];
      FaultStays(paths[..|paths| - 1], k);
    }
  }

  /** No path twice, and every ancestor in front of its descendants. */
  lemma CleanedPutsAncestorsFirst(paths: seq<string>, clean: string -> string, i: nat, j: nat)
    requires forall p :: IsAbs(p) ==> Canonical(clean(p))
    requires Fault(paths).None?
    requires i < |Cleaned(paths, clean)| && j < |Cleaned(paths, clean)|
    ensures i != j ==> Cleaned(paths, clean)[i] != Cleaned(paths, clean)[j]
    ensures i != j && Within(Cleaned(paths, clean)[j], Cleaned(paths, clean)[i]) ==> i < j
  {
    var s := Cleaned(paths, clean);
    CleanedIsSorted(paths, clean);
    CleanedAreCanonical(paths, clean);
    BeforeTotal(s[i], s[j]);
    assert s[i] in Elements(s) && s[j] in Elements(s);
    if i != j && Within(s[j], s[i]) {
      AncestorIsBefore(s[j], s[i]);
    }
  }

  lemma {:induction false} CleanedAreCanonical(paths: seq<string>, clean: string -> string)
    requires forall p :: IsAbs(p) ==> Canonical(clean(p))
    requires Fault(paths).None?
    ensures forall p :: p in Elements(Cleaned(paths, clean)) ==> Canonical(p)
  {
    if paths != [] {
      var n := |paths| - 1;
      CleanedAreCanonical(paths[..n], clean);
      if paths[n] != "" {
        InsertElements(clean(paths[n]), Cleaned(paths[..n], clean));
      }
    }
  }

  // ---- The first of each, in order ----

  function FirstOfEach(paths: seq<string>, clean: string -> string): seq<string> {
    if paths == [] then []
    else
      var before, last := FirstOfEach(paths[..|paths| - 1], clean), clean(paths[|paths| - 1]);
      if last in before then before else before + [last]
  }

  method UniqueOrderedPaths(paths: seq<string>, clean: string -> string) returns (result: seq<string>)
    ensures result == FirstOfEach(paths, clean)
  {
    var seen: set<string> := {};
    result := [];
    for i := 0 to |paths|
      invariant result == FirstOfEach(paths[..i], clean)
      invariant forall p :: p in seen <==> p in result
    {
      assert paths[..i + 1][..i] == paths[..i];
      var path := clean(paths[i]);
      if path in seen {
        continue;
      }
      seen := seen + {path};
      result := result + [path];
    }
    assert paths[..|paths|] == paths;
  }

  /** The list is in the order of first occurrences: each path has its first place before the next one's. */
  lemma {:induction false} FirstOfEachInOrder(paths: seq<string>, clean: string -> string) returns (at: seq<nat>)
    ensures |at| == |FirstOfEach(paths, clean)| && forall j, k :: 0 <= j < k < |at| ==> at[j] < at[k]
    ensures
      forall k :: 0 <= k < |at| ==>
        && at[k] < |paths| && FirstOfEach(paths, clean)[k] == clean(paths[at[k]])
        && forall i :: 0 <= i < at[k] ==> clean(paths[i]) != clean(paths[at[k]])
  {
    at := [];
    if paths != [] {
      var n := |paths| - 1;
      at := FirstOfEachInOrder(paths[..n], clean);
      FirstOfEachKeeps(paths[..n], clean);
      assert forall i :: 0 <= i < n ==> paths[..n][i] == paths[i];
      var before := FirstOfEach(paths[..n], clean);
      if clean(paths[n]) !in before {
        forall i | 0 <= i < n
          ensures clean(paths[i]) != clean(paths[n])
        {
          assert clean(paths[..n][i]) in Elements(before);
        }
        at := at + [n];
      }
    }
  }

  /** Dropping repeats keeps every path, once. */
  lemma {:induction false} FirstOfEachKeeps(paths: seq<string>, clean: string -> string)
    ensures Elements(FirstOfEach(paths, clean)) == set i | 0 <= i < |paths| :: clean(paths[i])
    ensures forall i, j :: 0 <= i < j < |FirstOfEach(paths, clean)| ==>
            FirstOfEach(paths, clean)[i] != FirstOfEach(paths, clean)[j]
  {
    if paths != [] {
      var n := |paths| - 1;
      FirstOfEachKeeps(paths[..n], clean);
      assert forall i :: 0 <= i < n ==> paths[..n][i] == paths[i];
      assert (set i | 0 <= i < |paths| :: clean(paths[i])) ==
        (set i | 0 <= i < n :: clean(paths[..n][i])) + {clean(paths[n])};
      var before := FirstOfEach(paths[..n], clean);
      LastElement(before, clean(paths[n]));
    }
  }

  lemma LastElement(s: seq<string>, x: string)
    ensures Elements(s + [x]) == Elements(s) + {x}
    ensures x in s ==> Elements(s) == Elements(s) + {x}
  {
    assert (s + [x])[|s|] == x;
    assert forall i :: 0 <= i < |s| ==> (s + [x])[i] == s[i];
  }
}
