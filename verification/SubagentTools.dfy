/** The tools a subagent may use: its spawn grant narrowed by every ancestor, at every refresh. */
module SubagentTools {
  import opened Wrappers

  datatype Thread = Thread(id: string, parent: string, grant: seq<string>, local: seq<string>)

  predicate IsSubagent(t: Thread) {
    t.parent != ""
  }

  datatype Refusal = TooDeep | Cycle | Unknown

  datatype Result = Granted(tools: seq<string>) | Refused(reason: Refusal)

  const MAX_ANCESTRY := 128

  /** Thread metadata by id; every thread is stored under its own id. */
  type Threads = map<string, Thread>

  predicate WellKeyed(threads: Threads) {
    forall id :: id in threads ==> threads[id].id == id
  }

  /** The ancestors of a thread, nearest first, if the walk ends within `limit` parents. */
  function Ancestors(threads: Threads, t: Thread, limit: nat): Option<seq<Thread>>
    decreases limit
  {
    if t.parent == "" then Some([])
    else if limit == 0 || t.parent !in threads then None
    else
      var rest := Ancestors(threads, threads[t.parent], limit - 1);
      if rest.None? then None else Some([threads[t.parent]] + rest.value)
  }

  function Below(t: Thread, chain: seq<Thread>, k: nat): Thread
    requires k <= |chain|
  {
    if k == 0 then t else chain[k - 1]
  }

  /** The ancestry of a thread: each one the stored parent of the one before, up to one without a parent. */
  ghost predicate IsAncestry(threads: Threads, t: Thread, chain: seq<Thread>) {
    && (forall k :: 0 <= k < |chain| ==>
          && Below(t, chain, k).parent != "" && Below(t, chain, k).parent in threads
          && chain[k] == threads[Below(t, chain, k).parent])
    && Below(t, chain, |chain|).parent == ""
  }

  lemma {:induction false} AncestorsMean(threads: Threads, t: Thread, limit: nat, chain: seq<Thread>)
    ensures Ancestors(threads, t, limit) == Some(chain) <==> IsAncestry(threads, t, chain) && |chain| <= limit
    decreases limit
  {
    hide IsAncestry;
    AncestryStarts(threads, t, chain);
    if t.parent != "" && limit > 0 && t.parent in threads && chain != [] {
      AncestorsMean(threads, threads[t.parent], limit - 1, chain[1..]);
      AncestryFromParent(threads, t, chain);
      assert chain == [chain[0]] + chain[1..];
    }
  }

  lemma AncestryStarts(threads: Threads, t: Thread, chain: seq<Thread>)
    ensures t.parent == "" ==> (IsAncestry(threads, t, chain) <==> chain == [])
    ensures t.parent != "" && IsAncestry(threads, t, chain) ==> chain != [] && t.parent in threads
  {
    assert Below(t, chain, 0) == t;
  }

  lemma AncestryFromParent(threads: Threads, t: Thread, chain: seq<Thread>)
    requires t.parent != "" && t.parent in threads && chain != []
    ensures IsAncestry(threads, t, chain) <==>
            chain[0] == threads[t.parent] && IsAncestry(threads, threads[t.parent], chain[1..])
  {
    var parent, rest := threads[t.parent], chain[1..];
    assert Below(t, chain, 0) == t;
    if chain[0] == parent {
      forall k | 0 <= k <= |rest|
        ensures Below(parent, rest, k) == Below(t, chain, k + 1)
      {
      }
      if IsAncestry(threads, parent, rest) {
        forall k | 0 <= k < |chain|
          ensures
            && Below(t, chain, k).parent != "" && Below(t, chain, k).parent in threads
            && chain[k] == threads[Below(t, chain, k).parent]
        {
          if k > 0 {
            assert Below(parent, rest, k - 1) == Below(t, chain, k) && rest[k - 1] == chain[k];
          }
        }
      }
    }
  }

  /** The tools that one thread's own settings let through. */
  predicate LocallyAllowed(t: Thread, tool: string, builtins: set<string>) {
    tool in builtins ==> tool in t.local
  }

  /** An ancestor passes a tool on if it may use it itself. */
  predicate PassesOn(ancestor: Thread, tool: string, builtins: set<string>) {
    LocallyAllowed(ancestor, tool, builtins) && (IsSubagent(ancestor) ==> tool in ancestor.grant)
  }

  predicate AllPassOn(ancestors: seq<Thread>, tool: string, builtins: set<string>) {
    forall i :: 0 <= i < |ancestors| ==> PassesOn(ancestors[i], tool, builtins)
  }

  /** The meaning of the effective set: granted, locally allowed, and passed on by the whole chain. */
  predicate Allowed(t: Thread, ancestors: seq<Thread>, tool: string, builtins: set<string>) {
    tool in t.grant && LocallyAllowed(t, tool, builtins) && AllPassOn(ancestors, tool, builtins)
  }

  function Select(grant: seq<string>, allowed: set<string>): seq<string> {
    if grant == [] then []
    else
      var n := |grant| - 1;
      Select(grant[..n], allowed) + if grant[n] in allowed then [grant[n]] else []
  }

  method NarrowLocalTools(allowed: set<string>, local: seq<string>, builtins: set<string>)
    returns (narrowed: set<string>)
    ensures narrowed == set tool | tool in allowed && (tool in builtins ==> tool in local)
  {
    var localSet := set i | 0 <= i < |local| :: local[i];
    narrowed := allowed;
    var todo := allowed;
    while todo != {}
      invariant todo <= allowed
      invariant narrowed == set tool | tool in allowed && (tool in todo || (tool in builtins ==> tool in local))
      decreases |todo|
    {
      var name :| name in todo;
      if name in builtins && name !in localSet {
        narrowed := narrowed - {name};
      }
      todo := todo - {name};
    }
  }

  ghost predicate Distinct(walked: seq<string>) {
    forall i, j :: 0 <= i < j < |walked| ==> walked[i] != walked[j]
  }

  function Ids(ancestors: seq<Thread>): seq<string> {
    seq(|ancestors|, i requires 0 <= i < |ancestors| => ancestors[i].id)
  }

  lemma {:induction false} AncestorsMonotone(threads: Threads, t: Thread, limit: nat, more: nat)
    requires limit <= more && Ancestors(threads, t, limit).Some?
    ensures Ancestors(threads, t, more) == Ancestors(threads, t, limit)
    ensures |Ancestors(threads, t, limit).value| <= limit
    decreases limit
  {
    if t.parent != "" {
      AncestorsMonotone(threads, threads[t.parent], limit - 1, more - 1);
    }
  }

  /** A suffix of an ancestry is the ancestry of the thread before it. */
  lemma {:induction false} AncestryBelow(threads: Threads, t: Thread, limit: nat, k: nat)
    requires Ancestors(threads, t, limit).Some? && k < |Ancestors(threads, t, limit).value|
    ensures
      var chain := Ancestors(threads, t, limit).value;
      k < limit && Ancestors(threads, chain[k], limit - k - 1) == Some(chain[k + 1..])
    decreases limit
  {
    var chain := Ancestors(threads, t, limit).value;
    var rest := Ancestors(threads, threads[t.parent], limit - 1).value;
    assert chain == [threads[t.parent]] + rest;
    assert forall j :: 0 <= j <= |rest| ==> chain[j + 1..] == rest[j..];
    if k > 0 {
      AncestryBelow(threads, threads[t.parent], limit - 1, k - 1);
    }
  }

  lemma {:induction false} ChainIsStored(threads: Threads, t: Thread, limit: nat)
    requires WellKeyed(threads) && Ancestors(threads, t, limit).Some?
    ensures forall k :: 0 <= k < |Ancestors(threads, t, limit).value| ==>
              var a := Ancestors(threads, t, limit).value[k];
              a.id in threads && threads[a.id] == a
    decreases limit
  {
    if t.parent != "" {
      ChainIsStored(threads, threads[t.parent], limit - 1);
    }
  }

  /** A walk that ends never meets the same thread twice. */
  lemma EndingWalkIsDistinct(threads: Threads, t: Thread, limit: nat)
    requires WellKeyed(threads) && Ancestors(threads, t, limit).Some?
    ensures Distinct(Ids(Ancestors(threads, t, limit).value))
  {
    var chain := Ancestors(threads, t, limit).value;
    ChainIsStored(threads, t, limit);
    forall i, j | 0 <= i < j < |chain|
      ensures chain[i].id != chain[j].id
    {
      AncestryBelow(threads, t, limit, i);
      AncestryBelow(threads, t, limit, j);
      if chain[i].id == chain[j].id {
        assert chain[i] == chain[j];
        AncestorsMonotone(threads, chain[j], limit - j - 1, limit - i - 1);
        assert false;
      }
    }
  }

  /** The set that the walk has left after some ancestors. */
  function Left(t: Thread, walked: seq<Thread>, builtins: set<string>): set<string> {
    set tool | tool in t.grant && Allowed(t, walked, tool, builtins)
  }

  lemma LeftShrinks(t: Thread, walked: seq<Thread>, next: Thread, builtins: set<string>)
    ensures Left(t, walked + [next], builtins) ==
            set tool | tool in Left(t, walked, builtins) && PassesOn(next, tool, builtins)
  {
    forall tool | tool in Left(t, walked, builtins) && PassesOn(next, tool, builtins)
      ensures AllPassOn(walked + [next], tool, builtins)
    {
    }
    forall tool | tool in Left(t, walked + [next], builtins)
      ensures tool in Left(t, walked, builtins) && PassesOn(next, tool, builtins)
    {
      assert (walked + [next])[|walked|] == next;
      assert forall i :: 0 <= i < |walked| ==> (walked + [next])[i] == walked[i];
    }
  }

  /** The grant is filtered in order, repeats included. */
  lemma {:induction false} SelectMeans(grant: seq<string>, allowed: set<string>) returns (at: seq<nat>)
    ensures Picks(at, seq(|grant|, i requires 0 <= i < |grant| => grant[i] in allowed))
    ensures |at| == |Select(grant, allowed)|
    ensures forall k :: 0 <= k < |at| ==> at[k] < |grant| && Select(grant, allowed)[k] == grant[at[k]]
  {
    hide Picks;
    var flags := seq(|grant|, i requires 0 <= i < |grant| => grant[i] in allowed);
    if grant == [] {
      at := [];
      NothingPicked();
      assert flags == [];
    } else {
      var n := |grant| - 1;
      var before := SelectMeans(grant[..n], allowed);
      assert flags[..n] == seq(n, i requires 0 <= i < n => grant[..n][i] in allowed)
        && flags == flags[..n] + [flags[n]];
      PicksOneMore(before, flags[..n], flags[n]);
      at := Picking(before, n, flags[n]);
    }
  }

  function EffectiveTools(threads: Threads, t: Thread, builtins: set<string>): seq<string>
    requires Ancestors(threads, t, MAX_ANCESTRY).Some?
  {
    Select(t.grant, Left(t, Ancestors(threads, t, MAX_ANCESTRY).value, builtins))
  }

  /** The effective tools, told from the ancestry alone: granted, and what every thread of it may use itself. */
  lemma EffectiveMeans(threads: Threads, t: Thread, chain: seq<Thread>, builtins: set<string>, tool: string)
    requires IsAncestry(threads, t, chain) && |chain| <= 128
    ensures Ancestors(threads, t, 128) == Some(chain)
    ensures tool in EffectiveTools(threads, t, builtins) <==>
            && tool in t.grant && (tool in builtins ==> tool in t.local)
            && forall a: Thread :: a in chain ==>
                 (tool in builtins ==> tool in a.local) && (a.parent != "" ==> tool in a.grant)
  {
    hide IsAncestry, Ancestors, AllPassOn, EffectiveTools;
    AncestorsMean(threads, t, 128, chain);
    EffectiveMeansAllowed(threads, t, builtins, tool);
    AllPassOnMeans(chain, tool, builtins);
  }

  lemma WalkMeans(threads: Threads, t: Thread, builtins: set<string>)
    requires Ancestors(threads, t, 128).Some?
    ensures
      var chain := Ancestors(threads, t, 128).value;
      && IsAncestry(threads, t, chain)
      && forall tool :: tool in EffectiveTools(threads, t, builtins) <==>
           && tool in t.grant && (tool in builtins ==> tool in t.local)
           && forall a: Thread :: a in chain ==>
                (tool in builtins ==> tool in a.local) && (a.parent != "" ==> tool in a.grant)
  {
    hide IsAncestry, Ancestors, EffectiveTools;
    var chain := Ancestors(threads, t, 128).value;
    AncestorsMean(threads, t, 128, chain);
    forall tool: string
      ensures tool in EffectiveTools(threads, t, builtins) <==>
              && tool in t.grant && (tool in builtins ==> tool in t.local)
              && forall a: Thread :: a in chain ==>
                   (tool in builtins ==> tool in a.local) && (a.parent != "" ==> tool in a.grant)
    {
      EffectiveMeans(threads, t, chain, builtins, tool);
    }
  }

  lemma AllPassOnMeans(chain: seq<Thread>, tool: string, builtins: set<string>)
    ensures AllPassOn(chain, tool, builtins) <==>
            forall a: Thread :: a in chain ==>
              (tool in builtins ==> tool in a.local) && (a.parent != "" ==> tool in a.grant)
  {
    if AllPassOn(chain, tool, builtins) {
      forall a | a in chain
        ensures (tool in builtins ==> tool in a.local) && (a.parent != "" ==> tool in a.grant)
      {
        var i :| 0 <= i < |chain| && chain[i] == a;
        assert PassesOn(chain[i], tool, builtins);
      }
    }
  }

  lemma CompletesMeans(threads: Threads, t: Thread)
    ensures Completes(threads, t) <==>
            exists chain :: IsAncestry(threads, t, chain) && |chain| <= 128 && t.id !in Ids(chain)
  {
    hide IsAncestry, Ancestors;
    if Completes(threads, t) {
      AncestorsMean(threads, t, 128, Ancestors(threads, t, 128).value);
    }
    if chain :| IsAncestry(threads, t, chain) && |chain| <= 128 && t.id !in Ids(chain) {
      AncestorsMean(threads, t, 128, chain);
    }
  }

  method SelectGranted(grant: seq<string>, allowed: set<string>) returns (tools: seq<string>)
    ensures tools == Select(grant, allowed)
  {
    tools := [];
    for i := 0 to |grant|
      invariant tools == Select(grant[..i], allowed)
    {
      assert grant[..i + 1][..i] == grant[..i];
      if grant[i] in allowed {
        tools := tools + [grant[i]];
      }
    }
    assert grant[..|grant|] == grant;
  }

  /** The part of the ancestry still to walk, given what was walked. */
  ghost predicate Continues(threads: Threads, t: Thread, walked: seq<Thread>, current: Thread) {
    && |walked| <= MAX_ANCESTRY
    && var whole, rest := Ancestors(threads, t, MAX_ANCESTRY), Ancestors(threads, current, MAX_ANCESTRY - |walked|);
    && (whole.Some? <==> rest.Some?)
    && (whole.Some? ==> whole.value == walked + rest.value)
  }

  ghost predicate Completes(threads: Threads, t: Thread) {
    var ancestry := Ancestors(threads, t, MAX_ANCESTRY);
    ancestry.Some? && t.id !in Ids(ancestry.value)
  }

  /** If the walk ends without coming back to the thread, every parent it meets is new. */
  lemma CompletingWalkMeetsNewParents(threads: Threads, t: Thread, walked: seq<Thread>, current: Thread)
    requires WellKeyed(threads) && Continues(threads, t, walked, current)
    requires current.parent != "" && Completes(threads, t)
    ensures current.parent != t.id && current.parent !in Ids(walked)
  {
    var chain := Ancestors(threads, t, MAX_ANCESTRY).value;
    EndingWalkIsDistinct(threads, t, MAX_ANCESTRY);
    assert chain[|walked|] == threads[current.parent] && Ids(chain)[|walked|] == current.parent;
    assert Ids(chain)[..|walked|] == Ids(walked);
  }

  /** Walking to a stored parent leaves one ancestor less to walk. */
  lemma ContinuesOneMore(threads: Threads, t: Thread, walked: seq<Thread>, current: Thread)
    requires Continues(threads, t, walked, current)
    requires |walked| < MAX_ANCESTRY && current.parent != "" && current.parent in threads
    ensures Continues(threads, t, walked + [threads[current.parent]], threads[current.parent])
  {
  }

  /** One ancestor's turn: its grant if it is a subagent, then its own tool list. */
  method NarrowByAncestor(allowed: set<string>, parent: Thread, builtins: set<string>) returns (narrowed: set<string>)
    ensures narrowed ==
            set tool | tool in allowed && (tool in builtins ==> tool in parent.local)
                       && (parent.parent != "" ==> tool in parent.grant)
  {
    narrowed := allowed;
    if parent.parent != "" {
      var parentGrant := set i | 0 <= i < |parent.grant| :: parent.grant[i];
      narrowed := narrowed * parentGrant;
    }
    narrowed := NarrowLocalTools(narrowed, parent.local, builtins);
  }

  lemma IdsOfOneMore(walked: seq<Thread>, next: Thread)
    ensures Ids(walked + [next]) == Ids(walked) + [next.id]
  {
  }

  /**
   The ancestry walk. It ends on any graph; it succeeds exactly when the ancestry ends within the limit
   without coming back to the thread, and then the result is the grant filtered by the whole chain.
   */
  method EffectiveSubagentTools(threads: Threads, resource: Thread, builtins: set<string>) returns (r: Result)
    requires WellKeyed(threads)
    ensures r.Granted? <==> Completes(threads, resource)
    ensures r.Granted? ==>
              && r.tools == EffectiveTools(threads, resource, builtins)
              && var chain := Ancestors(threads, resource, MAX_ANCESTRY).value;
              && IsAncestry(threads, resource, chain)
              && forall tool :: tool in r.tools <==>
                   && tool in resource.grant && (tool in builtins ==> tool in resource.local)
                   && forall a: Thread :: a in chain ==>
                        (tool in builtins ==> tool in a.local) && (a.parent != "" ==> tool in a.grant)
  {
    var allowed := set i | 0 <= i < |resource.grant| :: resource.grant[i];
    allowed := NarrowLocalTools(allowed, resource.local, builtins);
    var current := resource;
    var visited := {resource.id};
    var depth := 0;
    ghost var walked: seq<Thread> := [];
    assert allowed == Left(resource, [], builtins);
    while current.parent != ""
      invariant depth == |walked| && Continues(threads, resource, walked, current)
      invariant visited == {resource.id} + set id | id in Ids(walked)
      invariant resource.id !in Ids(walked)
      invariant allowed == Left(resource, walked, builtins)
      decreases MAX_ANCESTRY - depth
    {
      if depth >= MAX_ANCESTRY {
        return Refused(TooDeep);
      }
      if current.parent in visited {
        if Completes(threads, resource) {
          CompletingWalkMeetsNewParents(threads, resource, walked, current);
          assert false;
        }
        return Refused(Cycle);
      }
      visited := visited + {current.parent};
      if current.parent !in threads {
        return Refused(Unknown);
      }
      var parent := threads[current.parent];
      LeftShrinks(resource, walked, parent, builtins);
      allowed := NarrowByAncestor(allowed, parent, builtins);
      ContinuesOneMore(threads, resource, walked, current);
      IdsOfOneMore(walked, parent);
      walked := walked + [parent];
      current := parent;
      depth := depth + 1;
    }
    assert walked + [] == walked;
    WalkMeans(threads, resource, builtins);
    var tools := SelectGranted(resource.grant, allowed);
    return Granted(tools);
  }

  lemma {:induction false} SelectMembers(grant: seq<string>, allowed: set<string>)
    ensures forall tool :: tool in Select(grant, allowed) <==> tool in grant && tool in allowed
  {
    if grant != [] {
      SelectMembers(grant[..|grant| - 1], allowed);
      assert grant == grant[..|grant| - 1] + [grant[|grant| - 1]];
    }
  }

  /** Whatever the ancestors' current settings are, a child gets no tool that its subagent parent does not get. */
  lemma ChildWithinParent(threads: Threads, child: Thread, builtins: set<string>, tool: string)
    requires Ancestors(threads, child, MAX_ANCESTRY).Some? && child.parent in threads
    requires IsSubagent(child) && IsSubagent(threads[child.parent])
    requires tool in EffectiveTools(threads, child, builtins)
    ensures Ancestors(threads, threads[child.parent], MAX_ANCESTRY).Some?
    ensures tool in EffectiveTools(threads, threads[child.parent], builtins)
  {
    var parent := threads[child.parent];
    AncestorsMonotone(threads, parent, MAX_ANCESTRY - 1, MAX_ANCESTRY);
    var chain, above := Ancestors(threads, child, MAX_ANCESTRY).value, Ancestors(threads, parent, MAX_ANCESTRY).value;
    assert chain == [parent] + above;
    SelectMembers(child.grant, Left(child, chain, builtins));
    assert PassesOn(chain[0], tool, builtins);
    assert forall i :: 0 <= i < |above| ==> above[i] == chain[i + 1];
    SelectMembers(parent.grant, Left(parent, above, builtins));
  }

  /** A child never exceeds the grant it was spawned with, and built-ins stay within every ancestor's local list. */
  lemma WithinGrantAndLists(threads: Threads, t: Thread, builtins: set<string>, tool: string, k: nat)
    requires Ancestors(threads, t, MAX_ANCESTRY).Some? && k < |Ancestors(threads, t, MAX_ANCESTRY).value|
    requires tool in EffectiveTools(threads, t, builtins)
    ensures tool in t.grant && (tool in builtins ==> tool in t.local)
    ensures
      var ancestor := Ancestors(threads, t, MAX_ANCESTRY).value[k];
      (tool in builtins ==> tool in ancestor.local) && (ancestor.parent != "" ==> tool in ancestor.grant)
  {
    SelectMembers(t.grant, Left(t, Ancestors(threads, t, MAX_ANCESTRY).value, builtins));
    assert PassesOn(Ancestors(threads, t, MAX_ANCESTRY).value[k], tool, builtins);
  }

  /** A tool is effective exactly when it is granted, locally allowed and passed on by every ancestor. */
  lemma EffectiveMeansAllowed(threads: Threads, t: Thread, builtins: set<string>, tool: string)
    requires Ancestors(threads, t, MAX_ANCESTRY).Some?
    ensures tool in EffectiveTools(threads, t, builtins) <==>
            Allowed(t, Ancestors(threads, t, MAX_ANCESTRY).value, tool, builtins)
  {
    SelectMembers(t.grant, Left(t, Ancestors(threads, t, MAX_ANCESTRY).value, builtins));
  }
}
