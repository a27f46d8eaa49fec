/** The loops and updates behind a team: listing it, its limits, spawning, deleting, narrowing grants. */
module TeamStore {
  import opened TeamForest
  import Text
  import opened Wrappers

  /** What a listing holds, thread by thread. */
  function Entries(xs: seq<Member>): Team {
    if xs == [] then map[]
    else
      var n := |xs| - 1;
      Entries(xs[..n])[xs[n].id := xs[n]]
  }

  predicate Distinct(xs: seq<Member>) {
    xs == [] || (Distinct(xs[..|xs| - 1]) && xs[|xs| - 1].id !in Entries(xs[..|xs| - 1]))
  }

  /** A listing of the store names every thread once, in any order. */
  predicate Lists(xs: seq<Member>, s: Team) {
    Distinct(xs) && Entries(xs) == s
  }

  lemma {:induction false} DistinctUpTo(xs: seq<Member>, k: nat)
    requires Distinct(xs) && k < |xs|
    ensures Distinct(xs[..k]) && xs[k].id !in Entries(xs[..k])
    ensures xs[..k + 1][..k] == xs[..k]
  {
    if k < |xs| - 1 {
      DistinctUpTo(xs[..|xs| - 1], k);
      assert xs[..|xs| - 1][..k] == xs[..k];
    }
  }

  function InTeam(xs: seq<Member>, rootId: string): seq<Member> {
    if xs == [] then []
    else
      var x := xs[|xs| - 1];
      InTeam(xs[..|xs| - 1], rootId) + if x.id == rootId || x.root == rootId then [x] else []
  }

  lemma {:induction false} InTeamLists(xs: seq<Member>, rootId: string)
    requires Distinct(xs)
    ensures Lists(InTeam(xs, rootId), TeamOf(Entries(xs), rootId))
  {
    if xs != [] {
      var x := xs[|xs| - 1];
      var before := InTeam(xs[..|xs| - 1], rootId);
      InTeamLists(xs[..|xs| - 1], rootId);
      TeamOfOneMore(Entries(xs[..|xs| - 1]), x, rootId);
      if x.id == rootId || x.root == rootId {
        ListsOneMore(before, x);
      } else {
        assert before + [] == before;
      }
    }
  }

  lemma ListsOneMore(xs: seq<Member>, x: Member)
    requires Distinct(xs) && x.id !in Entries(xs)
    ensures Lists(xs + [x], Entries(xs)[x.id := x])
  {
  }

  lemma TeamOfOneMore(s: Team, x: Member, rootId: string)
    requires x.id !in s
    ensures TeamOf(s[x.id := x], rootId) ==
            if x.id == rootId || x.root == rootId then TeamOf(s, rootId)[x.id := x] else TeamOf(s, rootId)
  {
  }

  method ListTeamThreads(resources: seq<Member>, rootId: string) returns (team: seq<Member>)
    requires Distinct(resources)
    ensures Lists(team, TeamOf(Entries(resources), rootId))
  {
    team := [];
    for k := 0 to |resources|
      invariant team == InTeam(resources[..k], rootId)
    {
      assert resources[..k + 1][..k] == resources[..k];
      if resources[k].id == rootId || resources[k].root == rootId {
        team := team + [resources[k]];
      }
    }
    assert resources[..|resources|] == resources;
    InTeamLists(resources, rootId);
  }

  lemma OneMoreChild(s: Team, x: Member, parentId: string)
    requires x.id !in s
    ensures |Children(s[x.id := x], parentId)| == |Children(s, parentId)| + (if x.parent == parentId then 1 else 0)
  {
    if x.parent == parentId {
      assert Children(s[x.id := x], parentId) == Children(s, parentId) + {x.id};
    } else {
      assert Children(s[x.id := x], parentId) == Children(s, parentId);
    }
  }

  lemma OneMoreRunning(s: Team, x: Member)
    requires x.id !in s
    ensures |RunningIds(s[x.id := x])| == |RunningIds(s)| + (if IsSubagent(x) && x.running then 1 else 0)
  {
    if IsSubagent(x) && x.running {
      assert RunningIds(s[x.id := x]) == RunningIds(s) + {x.id};
    } else {
      assert RunningIds(s[x.id := x]) == RunningIds(s);
    }
  }

  /** Counting the listing counts the children and the running members of the team itself. */
  method EnforceTeamLimits(team: seq<Member>, parentId: string, policy: Policy) returns (r: Option<Refusal>)
    requires Distinct(team)
    ensures r == if |Children(Entries(team), parentId)| >= policy.maxChildren then Some(TooManyChildren)
                 else if |RunningIds(Entries(team))| >= policy.maxConcurrent then Some(TooManyRunning)
                 else None
  {
    var children, running := 0, 0;
    for k := 0 to |team|
      invariant children == |Children(Entries(team[..k]), parentId)|
      invariant running == |RunningIds(Entries(team[..k]))|
    {
      DistinctUpTo(team, k);
      OneMoreChild(Entries(team[..k]), team[k], parentId);
      OneMoreRunning(Entries(team[..k]), team[k]);
      if team[k].parent == parentId {
        children := children + 1;
      }
      if IsSubagent(team[k]) && team[k].running {
        running := running + 1;
      }
    }
    assert team[..|team|] == team;
    if children >= policy.maxChildren {
      return Some(TooManyChildren);
    }
    if running >= policy.maxConcurrent {
      return Some(TooManyRunning);
    }
    return None;
  }

  method HasChild(resources: seq<Member>, id: string) returns (found: bool)
    requires Distinct(resources)
    ensures found <==> Children(Entries(resources), id) != {}
  {
    for k := 0 to |resources|
      invariant Children(Entries(resources[..k]), id) == {}
    {
      DistinctUpTo(resources, k);
      if resources[k].parent == id {
        EntriesKept(resources, k);
        assert resources[k].id in Children(Entries(resources), id);
        return true;
      }
    }
    assert resources[..|resources|] == resources;
    return false;
  }

  lemma {:induction false} EntriesKept(xs: seq<Member>, k: nat)
    requires Distinct(xs) && k < |xs|
    ensures xs[k].id in Entries(xs) && Entries(xs)[xs[k].id] == xs[k]
  {
    if k < |xs| - 1 {
      EntriesKept(xs[..|xs| - 1], k);
    }
  }

  // ---- What a new child is granted ----

  datatype Grant = Granted(tools: seq<string>) | BadTool(name: string) | NotGranted(name: string) | ChatHasNoTools

  /** The profile's tools that the parent has, or all of the parent's when the profile names none. */
  function Base(parentTools: seq<string>, profile: Option<seq<string>>): seq<string> {
    if profile.None? then parentTools else Keep(profile.value, parentTools)
  }

  function Keep(names: seq<string>, wanted: seq<string>): seq<string> {
    if names == [] then []
    else
      var n := |names| - 1;
      Keep(names[..n], wanted) + if names[n] in wanted then [names[n]] else []
  }

  lemma {:induction false} KeepMembers(names: seq<string>, wanted: seq<string>)
    ensures forall name :: name in Keep(names, wanted) <==> name in names && name in wanted
  {
    if names != [] {
      KeepMembers(names[..|names| - 1], wanted);
      assert names == names[..|names| - 1] + [names[|names| - 1]];
    }
  }

  function Trimmed(requested: seq<string>): seq<string> {
    seq(|requested|, i requires 0 <= i < |requested| => Text.TrimSpace(requested[i]))
  }

  ghost predicate NoRepeats(names: seq<string>) {
    forall i, j :: 0 <= i < j < |names| ==> names[i] != names[j]
  }

  /** Every requested name, trimmed, is a name, is new and is in the base. */
  ghost predicate Requestable(names: seq<string>, base: seq<string>) {
    NoRepeats(names) && forall i :: 0 <= i < |names| ==> names[i] != "" && names[i] in base
  }

  ghost predicate BlankOrRepeated(names: seq<string>, name: string) {
    exists i :: 0 <= i < |names| && names[i] == name && (name == "" || exists j :: 0 <= j < i && names[j] == name)
  }

  /** What a spawn is granted: what it asks of the tools, and whether it gets that. */
  datatype Wish = Wish(
    chat: bool, parentTools: seq<string>, profile: Option<seq<string>>, requested: Option<seq<string>>)

  ghost predicate Grantable(w: Wish) {
    if w.chat then w.requested.None? || w.requested.value == []
    else w.requested.None? || Requestable(Trimmed(w.requested.value), Base(w.parentTools, w.profile))
  }

  function GrantOf(w: Wish): seq<string> {
    if w.chat then []
    else if w.requested.None? then Base(w.parentTools, w.profile)
    else Trimmed(w.requested.value)
  }

  method KeepGranted(names: seq<string>, parentTools: seq<string>) returns (base: seq<string>)
    ensures base == Keep(names, parentTools)
  {
    base := [];
    for i := 0 to |names|
      invariant base == Keep(names[..i], parentTools)
    {
      assert names[..i + 1][..i] == names[..i];
      if names[i] in parentTools {
        base := base + [names[i]];
      }
    }
    assert names[..|names|] == names;
  }

  /**
   A grant only narrows: it is the base, or exactly the requested names, all of them in the base; any
   unknown, blank or repeated request fails the whole spawn. The parent's tools come sorted and without team tools.
   */
  method NarrowAgentTools(w: Wish) returns (r: Grant)
    ensures r.Granted? <==> Grantable(w)
    ensures r.Granted? ==> r.tools == GrantOf(w)
    ensures r.ChatHasNoTools? <==> w.chat && w.requested.Some? && w.requested.value != []
    ensures r.BadTool? ==> w.requested.Some? && BlankOrRepeated(Trimmed(w.requested.value), r.name)
    ensures r.NotGranted? ==> w.requested.Some? && r.name in Trimmed(w.requested.value) && r.name != ""
    ensures r.NotGranted? ==> r.name !in w.parentTools || (w.profile.Some? && r.name !in w.profile.value)
  {
    if w.profile.Some? {
      KeepMembers(w.profile.value, w.parentTools);
    }
    if w.chat {
      if w.requested.Some? && |w.requested.value| != 0 {
        return ChatHasNoTools;
      }
      return Granted([]);
    }
    var base := w.parentTools;
    if w.profile.Some? {
      base := KeepGranted(w.profile.value, w.parentTools);
    }
    if w.requested.None? {
      return Granted(base);
    }
    r := TakeRequested(w.requested.value, base);
  }

  method TakeRequested(requested: seq<string>, base: seq<string>) returns (r: Grant)
    ensures r.Granted? <==> Requestable(Trimmed(requested), base)
    ensures r.Granted? ==> r.tools == Trimmed(requested)
    ensures !r.ChatHasNoTools? && (r.BadTool? ==> BlankOrRepeated(Trimmed(requested), r.name))
    ensures r.NotGranted? ==> r.name in Trimmed(requested) && r.name != "" && r.name !in base
  {
    ghost var names := Trimmed(requested);
    var seen: set<string> := {};
    var result: seq<string> := [];
    for i := 0 to |requested|
      invariant result == names[..i]
      invariant forall name :: name in seen <==> name in result
      invariant Requestable(names[..i], base)
    {
      var name := Text.TrimSpace(requested[i]);
      assert name == names[i];
      if name == "" || name in seen {
        assert name in names[..i] ==> exists j :: 0 <= j < i && names[j] == names[i];
        return BadTool(name);
      }
      if name !in base {
        return NotGranted(name);
      }
      seen := seen + {name};
      result := result + [name];
      assert names[..i + 1] == result;
    }
    assert names[..|names|] == names;
    return Granted(result);
  }

  /** When a wish is granted: a chat asks for nothing, others only for new names that parent and profile have. */
  lemma GrantableIff(w: Wish)
    ensures
      Grantable(w) <==>
      || w.requested.None?
      || (w.chat && w.requested.value == [])
      || (!w.chat
          && forall i :: 0 <= i < |w.requested.value| ==>
               var name := Text.TrimSpace(w.requested.value[i]);
               && name != "" && name in w.parentTools && (w.profile.Some? ==> name in w.profile.value)
               && forall j :: 0 <= j < i ==> Text.TrimSpace(w.requested.value[j]) != name)
  {
    if w.profile.Some? {
      KeepMembers(w.profile.value, w.parentTools);
    }
    if w.requested.Some? {
      var names := Trimmed(w.requested.value);
      assert forall i :: 0 <= i < |names| ==> names[i] == Text.TrimSpace(w.requested.value[i]);
    }
  }

  /**
   What is granted: nothing to a chat, the requested names in their order, and without a request every tool
   that parent and profile have.
   */
  lemma GrantMeans(w: Wish, tool: string)
    ensures w.chat ==> GrantOf(w) == []
    ensures !w.chat && w.requested.Some? ==>
              |GrantOf(w)| == |w.requested.value|
              && forall i :: 0 <= i < |w.requested.value| ==> GrantOf(w)[i] == Text.TrimSpace(w.requested.value[i])
    ensures !w.chat && w.requested.None? ==>
              (tool in GrantOf(w) <==> tool in w.parentTools && (w.profile.Some? ==> tool in w.profile.value))
  {
    if w.profile.Some? {
      KeepMembers(w.profile.value, w.parentTools);
    }
  }

  /** Whatever is asked for, a child is granted only tools of its parent, and only ones its profile lists. */
  lemma GrantWithinParent(w: Wish, tool: string)
    requires Grantable(w) && tool in GrantOf(w)
    ensures tool in w.parentTools && (w.profile.Some? ==> tool in w.profile.value)
  {
    if w.profile.Some? {
      KeepMembers(w.profile.value, w.parentTools);
    }
  }

  /** What the checks before the tools let through. */
  lemma EarlyRefusalIff(s: Team, policy: string -> Policy, parentId: string, profile: string)
    requires Forest(s)
    ensures
      EarlyRefusal(s, policy, parentId, profile).None? <==>
      && parentId in s
      && var p := policy(if s[parentId].root != "" then s[parentId].root else parentId);
         && profile in p.canSpawn && p.enabled && s[parentId].depth < p.maxDepth
         && (s[parentId].parent == ""
             || (s[parentId].profile in p.canSpawn && p.canSpawn[s[parentId].profile]))
  {
    if parentId in s {
      assert s[parentId].id == parentId != "";
    }
  }

  // ---- The store ----

  datatype SpawnReply = Spawned(tools: seq<string>) | NotStarted(tools: seq<string>) | Ungranted(grant: Grant)
                      | Rejected(reason: Refusal)

  /** What refuses a spawn before its tools are looked at. */
  function EarlyRefusal(s: Team, policy: string -> Policy, parentId: string, profile: string): Option<Refusal> {
    if parentId == "" || parentId !in s then Some(UnknownParent)
    else if profile !in policy(TeamRoot(s[parentId])).canSpawn then Some(UnknownProfile)
    else SpawnPolicyRefusal(s[parentId], policy(TeamRoot(s[parentId])))
  }

  /** The team after steps that all succeed; a refused one would change nothing. */
  function After(s: Team, policy: string -> Policy, steps: seq<Step>): Team {
    if steps == [] then s
    else
      var before := After(s, policy, steps[..|steps| - 1]);
      match Apply(before, policy, steps[|steps| - 1])
      case Done(team) => team
      case Refused(_) => before
  }

  /** So a reachable store stays reachable, and a forest. */
  lemma {:induction false} AfterRun(policy: string -> Policy, steps: seq<Step>, more: seq<Step>)
    ensures After(Run(policy, steps), policy, more) == Run(policy, steps + more)
  {
    hide Apply;
    if more == [] {
      assert steps + more == steps;
    } else {
      assert (steps + more)[..|steps + more| - 1] == steps + more[..|more| - 1];
      AfterRun(policy, steps, more[..|more| - 1]);
    }
  }

  lemma OneStepAfter(s: Team, policy: string -> Policy, a: Step)
    ensures After(s, policy, [a]) == if Apply(s, policy, a).Done? then Apply(s, policy, a).team else s
  {
    hide Apply;
    assert [a][..0] == [];
  }

  lemma TwoStepsAfter(s: Team, policy: string -> Policy, a: Step, b: Step)
    ensures [a, b][..1] == [a]
    ensures
      var t := After(s, policy, [a]);
      After(s, policy, [a, b]) == if Apply(t, policy, b).Done? then Apply(t, policy, b).team else t
  {
    hide Apply;
    assert [a, b][..1] == [a];
  }

  /** The threads of the daemon, changed one whole call at a time. */
  class Store {
    var members: Team

    constructor ()
      ensures members == map[]
    {
      members := map[];
    }

    method CreateRootThread(id: string) returns (r: Outcome)
      modifies this
      ensures r == CreateRoot(old(members), id)
      ensures members == if r.Done? then r.team else old(members)
    {
      if id == "" || id in members {
        return Refused(DuplicateId);
      }
      members := members[id := Member(id, "", "", 0, "", false)];
      return Done(members);
    }

    /**
     The checks come in the order of the source: parent, profile and policy, then the tools, then the limits. The
     child is made before its first prompt, so it stays when the prompt fails; `starts` says whether it succeeds.
     */
    method SpawnAgent(policy: string -> Policy, parentId: string, newId: string, profile: string, wish: Wish,
                      starts: bool, resources: seq<Member>)
      returns (r: SpawnReply)
      requires Lists(resources, members)
      modifies this
      ensures
        var early := EarlyRefusal(old(members), policy, parentId, profile);
        var outcome := Spawn(old(members), policy, parentId, newId, profile);
        && (early.Some? ==> r == Rejected(early.value))
        && (early.None? && !Grantable(wish) ==> r.Ungranted?)
        && (early.None? && Grantable(wish) && outcome.Refused? ==> r == Rejected(outcome.reason))
        && (early.None? && Grantable(wish) && outcome.Done? ==>
              r == if starts then Spawned(GrantOf(wish)) else NotStarted(GrantOf(wish)))
      ensures
        var steps := [SpawnStep(parentId, newId, profile), RunningStep(newId, true)];
        members == match r
                   case Spawned(_) => After(old(members), policy, steps)
                   case NotStarted(_) => After(old(members), policy, steps[..1])
                   case _ => old(members)
      ensures
        r.Spawned? || r.NotStarted? ==>
          parentId in old(members) && newId !in old(members) && r.Spawned? == starts &&
          var parent := old(members)[parentId];
          members == old(members)[
                       newId := Member(newId, parent.id, TeamRoot(parent), parent.depth + 1, profile, starts)]
      ensures !r.Spawned? && !r.NotStarted? ==> members == old(members)
    {
      hide Children, TeamOf, RunningIds, SpawnPolicyRefusal, Grantable, GrantOf;
      if parentId == "" || parentId !in members {
        return Rejected(UnknownParent);
      }
      var parent := members[parentId];
      var rootId := TeamRoot(parent);
      var settings := policy(rootId);
      if profile !in settings.canSpawn {
        return Rejected(UnknownProfile);
      }
      var refusal := SpawnPolicyRefusal(parent, settings);
      if refusal.Some? {
        return Rejected(refusal.value);
      }
      var grant := NarrowAgentTools(wish);
      if !grant.Granted? {
        return Ungranted(grant);
      }
      var team := ListTeamThreads(resources, rootId);
      var limit := EnforceTeamLimits(team, parentId, settings);
      if limit.Some? {
        return Rejected(limit.value);
      }
      if newId == "" || newId in members {
        return Rejected(DuplicateId);
      }
      OneStepAfter(members, policy, SpawnStep(parentId, newId, profile));
      TwoStepsAfter(members, policy, SpawnStep(parentId, newId, profile), RunningStep(newId, true));
      members := members[newId := NewChild(newId, parent, profile)];
      if !starts {
        return NotStarted(grant.tools);
      }
      members := members[newId := members[newId].(running := true)];
      return Spawned(grant.tools);
    }

    /** The store deletes a thread unless it runs or the scan meets a child of it. */
    method DeleteThread(id: string, resources: seq<Member>) returns (r: Outcome)
      requires Lists(resources, members)
      modifies this
      ensures r == Delete(old(members), id)
      ensures members == if r.Done? then r.team else old(members)
    {
      if id == "" || id !in members {
        return Refused(UnknownThread);
      }
      if members[id].running {
        return Refused(Busy);
      }
      var child := HasChild(resources, id);
      if child {
        return Refused(HasChildren);
      }
      members := members - {id};
      return Done(members);
    }
  }
}
