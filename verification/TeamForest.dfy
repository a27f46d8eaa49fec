/** Teams of conversations: spawning, deleting, ancestry and who may address whom. */
module TeamForest {
  import opened Wrappers

  datatype Member = Member(id: string, parent: string, root: string, depth: nat, profile: string, running: bool)

  /** The spawn policy of one team, as its root's settings give it. */
  datatype Policy = Policy(
    enabled: bool, maxDepth: int, maxChildren: int, maxConcurrent: int,
    canSpawn: map<string, bool>, allowSiblings: bool)

  type Team = map<string, Member>

  predicate IsSubagent(m: Member) {
    m.parent != ""
  }

  function TeamRoot(m: Member): string {
    if m.root != "" then m.root else m.id
  }

  function Children(s: Team, parent: string): set<string> {
    set id | id in s && s[id].parent == parent
  }

  function TeamOf(s: Team, root: string): Team {
    map id | id in s && (id == root || s[id].root == root) :: s[id]
  }

  function RunningIds(s: Team): set<string> {
    set id | id in s && IsSubagent(s[id]) && s[id].running
  }

  // ---- The steps ----

  datatype Refusal = UnknownParent | UnknownProfile | Disabled | TooDeep | MayNotSpawn | TooManyChildren
                   | TooManyRunning | DuplicateId | UnknownThread | Busy | HasChildren

  datatype Outcome = Done(team: Team) | Refused(reason: Refusal)

  function SpawnPolicyRefusal(parent: Member, policy: Policy): Option<Refusal> {
    if !policy.enabled then Some(Disabled)
    else if parent.depth >= policy.maxDepth then Some(TooDeep)
    else if IsSubagent(parent) && !(parent.profile in policy.canSpawn && policy.canSpawn[parent.profile])
    then Some(MayNotSpawn)
    else None
  }

  function NewChild(id: string, parent: Member, profile: string): Member {
    Member(id, parent.id, TeamRoot(parent), parent.depth + 1, profile, false)
  }

  /** A whole spawn call as one step: `id` is the newly drawn id. */
  function Spawn(s: Team, policy: string -> Policy, parentId: string, id: string, profile: string): Outcome {
    if parentId == "" || parentId !in s then Refused(UnknownParent)
    else
      var parent := s[parentId];
      var root := TeamRoot(parent);
      var p := policy(root);
      if profile !in p.canSpawn then Refused(UnknownProfile)
      else if SpawnPolicyRefusal(parent, p).Some? then Refused(SpawnPolicyRefusal(parent, p).value)
      else if |Children(TeamOf(s, root), parentId)| >= p.maxChildren then Refused(TooManyChildren)
      else if |RunningIds(TeamOf(s, root))| >= p.maxConcurrent then Refused(TooManyRunning)
      else if id == "" || id in s then Refused(DuplicateId)
      else Done(s[id := NewChild(id, parent, profile)])
  }

  function CreateRoot(s: Team, id: string): Outcome {
    if id == "" || id in s then Refused(DuplicateId)
    else Done(s[id := Member(id, "", "", 0, "", false)])
  }

  function Delete(s: Team, id: string): Outcome {
    if id == "" || id !in s then Refused(UnknownThread)
    else if s[id].running then Refused(Busy)
    else if Children(s, id) != {} then Refused(HasChildren)
    else Done(s - {id})
  }

  function SetRunning(s: Team, id: string, running: bool): Outcome {
    if id !in s then Refused(UnknownThread)
    else Done(s[id := s[id].(running := running)])
  }

  datatype Step = CreateStep(id: string) | SpawnStep(parent: string, id: string, profile: string)
                | DeleteStep(id: string) | RunningStep(id: string, running: bool)

  function Apply(s: Team, policy: string -> Policy, step: Step): Outcome {
    match step
    case CreateStep(id) => CreateRoot(s, id)
    case SpawnStep(parent, id, profile) => Spawn(s, policy, parent, id, profile)
    case DeleteStep(id) => Delete(s, id)
    case RunningStep(id, running) => SetRunning(s, id, running)
  }

  /** The store after some steps, a refused step changing nothing. */
  function Run(policy: string -> Policy, steps: seq<Step>): Team {
    if steps == [] then map[]
    else
      var s := Run(policy, steps[..|steps| - 1]);
      match Apply(s, policy, steps[|steps| - 1])
      case Done(team) => team
      case Refused(_) => s
  }

  // ---- What the steps mean ----

  /** In a store whose ids and teams are in order: exactly when a spawn is made, and what it makes. */
  lemma SpawnDoneIff(s: Team, policy: string -> Policy, parentId: string, id: string, profile: string)
    requires Forest(s)
    ensures
      Spawn(s, policy, parentId, id, profile).Done? <==>
      && parentId in s && id != "" && id !in s
      && var root := if s[parentId].root != "" then s[parentId].root else parentId;
         var p := policy(root);
         && profile in p.canSpawn && p.enabled && s[parentId].depth < p.maxDepth
         && (s[parentId].parent == ""
             || (s[parentId].profile in p.canSpawn && p.canSpawn[s[parentId].profile]))
         && |set k | k in s && s[k].parent == parentId| < p.maxChildren
         && |set k | k in s && s[k].root == root && s[k].running| < p.maxConcurrent
    ensures
      Spawn(s, policy, parentId, id, profile).Done? ==>
        parentId in s &&
        var parent := s[parentId];
        Spawn(s, policy, parentId, id, profile).team ==
        s[id := Member(id, parentId, if parent.root != "" then parent.root else parentId, parent.depth + 1,
                       profile, false)]
  {
    if parentId in s {
      var root := TeamRoot(s[parentId]);
      assert s[parentId].id == parentId != "" && Hangs(s, s[parentId]);
      TeamHoldsTheChildren(s, parentId);
      assert Children(s, parentId) == set k | k in s && s[k].parent == parentId;
      RootIsTopmost(s, parentId);
      RunningInTeam(s, root);
    }
  }

  /** In a team, the running subagents are the running threads that name its root. */
  lemma RunningInTeam(s: Team, root: string)
    requires Forest(s) && root in s && s[root].parent == ""
    ensures RunningIds(TeamOf(s, root)) == set k | k in s && s[k].root == root && s[k].running
  {
    forall k | k in s
      ensures s[k].root == root ==> s[k].parent != ""
    {
      assert Hangs(s, s[k]) && Hangs(s, s[root]);
    }
    assert root != "" && s[root].root == "";
  }

  /** A refused spawn names a check that fails. */
  lemma SpawnRefusedBecause(s: Team, policy: string -> Policy, parentId: string, id: string, profile: string)
    requires Forest(s) && Spawn(s, policy, parentId, id, profile).Refused?
    ensures
      var reason := Spawn(s, policy, parentId, id, profile).reason;
      && (reason.UnknownParent? <==> parentId !in s)
      && (parentId in s ==>
            var root := if s[parentId].root != "" then s[parentId].root else parentId;
            var p := policy(root);
            && (reason.UnknownProfile? <==> profile !in p.canSpawn)
            && (reason.Disabled? ==> !p.enabled)
            && (reason.TooDeep? ==> p.enabled && s[parentId].depth >= p.maxDepth)
            && (reason.MayNotSpawn? ==>
                  s[parentId].profile !in p.canSpawn || !p.canSpawn[s[parentId].profile])
            && (reason.TooManyChildren? ==> |set k | k in s && s[k].parent == parentId| >= p.maxChildren)
            && (reason.TooManyRunning? ==>
                  |set k | k in s && s[k].root == root && s[k].running| >= p.maxConcurrent)
            && (reason.DuplicateId? ==> id == "" || id in s))
  {
    if parentId in s {
      assert s[parentId].id == parentId != "" && Hangs(s, s[parentId]);
      TeamHoldsTheChildren(s, parentId);
      assert Children(s, parentId) == set k | k in s && s[k].parent == parentId;
      RootIsTopmost(s, parentId);
      RunningInTeam(s, TeamRoot(s[parentId]));
    }
  }

  /** Exactly when a thread is deleted: it is stored, does not run and is nobody's parent. */
  lemma DeleteDoneIff(s: Team, id: string)
    requires Forest(s)
    ensures Delete(s, id).Done? <==> id in s && !s[id].running && forall k :: k in s ==> s[k].parent != id
    ensures Delete(s, id).Done? ==> Delete(s, id).team == map k | k in s && k != id :: s[k]
    ensures Delete(s, id).Refused? && id in s ==>
              Delete(s, id).reason == if s[id].running then Busy else HasChildren
  {
    if id in s {
      assert id != "";
      assert Children(s, id) == {} <==> forall k :: k in s ==> s[k].parent != id by {
        if k :| k in s && s[k].parent == id {
          assert k in Children(s, id);
        }
      }
    }
  }

  // ---- The forest ----

  ghost predicate Keyed(s: Team) {
    forall id :: id in s ==> id != "" && s[id].id == id
  }

  /** One member hangs under its parent, or is a root. */
  predicate Hangs(s: Team, m: Member) {
    if m.parent == "" then m.depth == 0 && m.root == ""
    else
      && m.parent in s
      && m.depth == s[m.parent].depth + 1
      && m.root == TeamRoot(s[m.parent])
  }

  ghost predicate Forest(s: Team) {
    Keyed(s) && forall id :: id in s ==> Hangs(s, s[id])
  }

  /** One member is no deeper, and has no more children, than its team's policy lets it. */
  predicate WithinLimits(s: Team, policy: string -> Policy, m: Member) {
    && (IsSubagent(m) ==> m.depth <= policy(m.root).maxDepth)
    && (Children(s, m.id) != {} ==> |Children(s, m.id)| <= policy(TeamRoot(m)).maxChildren)
  }

  ghost predicate WithinPolicy(s: Team, policy: string -> Policy) {
    forall id :: id in s ==> WithinLimits(s, policy, s[id])
  }

  /** A parent's children are all in its team, so the limit check counts every one of them. */
  lemma TeamHoldsTheChildren(s: Team, parentId: string)
    requires Forest(s) && parentId in s
    ensures Children(TeamOf(s, TeamRoot(s[parentId])), parentId) == Children(s, parentId)
  {
  }

  lemma SpawnAdds(s: Team, policy: string -> Policy, parentId: string, id: string, profile: string)
    requires Spawn(s, policy, parentId, id, profile).Done?
    ensures parentId in s && id !in s && id != ""
    ensures Spawn(s, policy, parentId, id, profile).team == s[id := NewChild(id, s[parentId], profile)]
  {
    hide Children, TeamOf, RunningIds, SpawnPolicyRefusal;
  }

  lemma SpawnKeepsForest(s: Team, policy: string -> Policy, parentId: string, id: string, profile: string)
    requires Forest(s) && Spawn(s, policy, parentId, id, profile).Done?
    ensures Forest(Spawn(s, policy, parentId, id, profile).team)
  {
    hide Spawn;
    SpawnAdds(s, policy, parentId, id, profile);
    var after := s[id := NewChild(id, s[parentId], profile)];
    forall other | other in after
      ensures Hangs(after, after[other])
    {
      if other != id {
        assert Hangs(s, s[other]);
      }
    }
  }

  lemma SpawnChildren(s: Team, child: Member, parentId: string)
    requires Forest(s) && child.id !in s && child.id != "" && child.parent in s && parentId in s
    ensures Children(s[child.id := child], parentId) ==
            Children(s, parentId) + (if child.parent == parentId then {child.id} else {})
    ensures Children(s[child.id := child], child.id) == {}
  {
  }

  lemma SpawnKeepsPolicy(s: Team, policy: string -> Policy, parentId: string, id: string, profile: string)
    requires Forest(s) && WithinPolicy(s, policy) && Spawn(s, policy, parentId, id, profile).Done?
    ensures WithinPolicy(Spawn(s, policy, parentId, id, profile).team, policy)
  {
    var child := NewChild(id, s[parentId], profile);
    var after := s[id := child];
    TeamHoldsTheChildren(s, parentId);
    forall other | other in after
      ensures WithinLimits(after, policy, after[other])
    {
      if other == id {
        SpawnChildren(s, child, parentId);
      } else {
        SpawnChildren(s, child, other);
        assert WithinLimits(s, policy, s[other]);
      }
    }
  }

  lemma DeleteKeeps(s: Team, policy: string -> Policy, id: string)
    requires Forest(s) && WithinPolicy(s, policy) && Delete(s, id).Done?
    ensures Forest(Delete(s, id).team) && WithinPolicy(Delete(s, id).team, policy)
  {
    var after := Delete(s, id).team;
    forall other | other in after
      ensures Hangs(after, after[other]) && WithinLimits(after, policy, after[other])
    {
      assert Hangs(s, s[other]) && WithinLimits(s, policy, s[other])
        && (s[other].parent == id ==> other in Children(s, id));
      assert Children(after, other) == Children(s, other) - {id};
      SmallerSet(Children(s, other), id);
    }
  }

  lemma SmallerSet(xs: set<string>, x: string)
    ensures |xs - {x}| <= |xs|
  {
  }

  lemma RunningKeepsForest(s: Team, id: string, running: bool)
    requires Forest(s) && id in s
    ensures Forest(SetRunning(s, id, running).team)
  {
  }

  /** A member's limits look only at its place and at its set of children. */
  lemma SameLimits(s: Team, after: Team, policy: string -> Policy, m: Member, n: Member)
    requires WithinLimits(s, policy, m) && Children(after, n.id) == Children(s, m.id)
    requires n.parent == m.parent && n.root == m.root && n.depth == m.depth && TeamRoot(n) == TeamRoot(m)
    ensures WithinLimits(after, policy, n)
  {
  }

  lemma SameChildren(s: Team, after: Team, parent: string)
    requires s.Keys == after.Keys && forall id :: id in s ==> s[id].parent == after[id].parent
    ensures Children(after, parent) == Children(s, parent)
  {
  }

  lemma RunningKeepsPolicy(s: Team, policy: string -> Policy, id: string, running: bool)
    requires Forest(s) && WithinPolicy(s, policy) && id in s
    ensures WithinPolicy(SetRunning(s, id, running).team, policy)
  {
    var after := SetRunning(s, id, running).team;
    forall other | other in after
      ensures WithinLimits(after, policy, after[other])
    {
      SameChildren(s, after, other);
      SameLimits(s, after, policy, s[other], after[other]);
    }
  }

  lemma CreateKeepsForest(s: Team, id: string)
    requires Forest(s) && CreateRoot(s, id).Done?
    ensures Forest(CreateRoot(s, id).team)
  {
  }

  lemma CreateKeepsPolicy(s: Team, policy: string -> Policy, id: string)
    requires Forest(s) && WithinPolicy(s, policy) && CreateRoot(s, id).Done?
    ensures WithinPolicy(CreateRoot(s, id).team, policy)
  {
    var after := CreateRoot(s, id).team;
    NobodysParent(s, id);
    forall other | other in after
      ensures WithinLimits(after, policy, after[other])
    {
      assert Children(after, other) == Children(s, other);
      if other != id {
        SameLimits(s, after, policy, s[other], after[other]);
      }
    }
  }

  lemma NobodysParent(s: Team, id: string)
    requires Forest(s) && id !in s && id != ""
    ensures Children(s, id) == {}
  {
  }

  /** Every team that spawns, deletions and runs can reach is a forest within its policy. */
  lemma {:induction false} ReachableForest(policy: string -> Policy, steps: seq<Step>)
    ensures Forest(Run(policy, steps)) && WithinPolicy(Run(policy, steps), policy)
  {
    if steps != [] {
      ReachableForest(policy, steps[..|steps| - 1]);
      var s := Run(policy, steps[..|steps| - 1]);
      match steps[|steps| - 1]
      case CreateStep(id) =>
        if CreateRoot(s, id).Done? {
          CreateKeepsForest(s, id);
          CreateKeepsPolicy(s, policy, id);
        }
      case SpawnStep(parent, id, profile) =>
        if Spawn(s, policy, parent, id, profile).Done? {
          SpawnKeepsForest(s, policy, parent, id, profile);
          SpawnKeepsPolicy(s, policy, parent, id, profile);
        }
      case DeleteStep(id) =>
        if Delete(s, id).Done? {
          DeleteKeeps(s, policy, id);
        }
      case RunningStep(id, running) =>
        if id in s {
          RunningKeepsForest(s, id, running);
          RunningKeepsPolicy(s, policy, id, running);
        }
    }
  }

  // ---- Ancestry ----

  /** The n-th parent of a thread. */
  function Up(s: Team, id: string, n: nat): Option<string>
    decreases n
  {
    if n == 0 then Some(id)
    else if id !in s || s[id].parent == "" then None
    else Up(s, s[id].parent, n - 1)
  }

  /** The transitive parent relation. */
  ghost predicate AncestorOf(s: Team, ancestor: string, id: string) {
    exists n: nat :: n >= 1 && Up(s, id, n) == Some(ancestor)
  }

  lemma AncestorOfParent(s: Team, ancestor: string, id: string)
    ensures AncestorOf(s, ancestor, id) <==>
            id in s && s[id].parent != "" && (s[id].parent == ancestor || AncestorOf(s, ancestor, s[id].parent))
  {
    if AncestorOf(s, ancestor, id) {
      var n: nat :| n >= 1 && Up(s, id, n) == Some(ancestor);
      assert Up(s, s[id].parent, n - 1) == Some(ancestor);
    }
    if id in s && s[id].parent != "" {
      if s[id].parent == ancestor {
        assert Up(s, id, 1) == Some(ancestor);
      } else if AncestorOf(s, ancestor, s[id].parent) {
        var n: nat :| n >= 1 && Up(s, s[id].parent, n) == Some(ancestor);
        assert Up(s, id, n + 1) == Some(ancestor);
      }
    }
  }

  /** The ancestry walk ends on a forest, each parent being one level higher, and finds exactly the ancestors. */
  method IsAncestor(ancestorId: string, descendantId: string, members: Team) returns (found: bool)
    requires Forest(members)
    ensures found <==> AncestorOf(members, ancestorId, descendantId)
  {
    AncestorOfParent(members, ancestorId, descendantId);
    if descendantId !in members {
      return false;
    }
    var current := members[descendantId];
    while current.parent != ""
      invariant current.id in members && members[current.id] == current
      invariant AncestorOf(members, ancestorId, descendantId) <==> AncestorOf(members, ancestorId, current.id)
      decreases current.depth
    {
      AncestorOfParent(members, ancestorId, current.id);
      if current.parent == ancestorId {
        return true;
      }
      assert Hangs(members, current);
      if current.parent !in members || members[current.parent].id == current.id {
        return false;
      }
      current := members[current.parent];
    }
    AncestorOfParent(members, ancestorId, current.id);
    return false;
  }

  /** A team, taken out of the store, is a forest of its own. */
  lemma TeamIsForest(s: Team, root: string)
    requires Forest(s) && root in s && s[root].parent == ""
    ensures Forest(TeamOf(s, root))
  {
  }

  /** Every member's root id names a stored root of depth zero: its topmost ancestor. */
  lemma {:induction false} RootIsTopmost(s: Team, id: string)
    requires Forest(s) && id in s
    ensures
      var root := TeamRoot(s[id]);
      root in s && s[root].parent == "" && Up(s, id, s[id].depth) == Some(root)
    decreases s[id].depth
  {
    assert Hangs(s, s[id]);
    if s[id].parent != "" {
      RootIsTopmost(s, s[id].parent);
    }
  }

  /** A team's root is an ancestor of every other member. */
  lemma RootIsAncestor(s: Team, id: string)
    requires Forest(s) && id in s && IsSubagent(s[id])
    ensures AncestorOf(s, TeamRoot(s[id]), id)
  {
    RootIsTopmost(s, id);
    assert Hangs(s, s[id]);
    assert s[id].depth >= 1 && Up(s, id, s[id].depth) == Some(TeamRoot(s[id]));
  }

  lemma {:induction false} UpInTeam(s: Team, root: string, id: string, n: nat)
    requires Forest(s) && root in s && s[root].parent == "" && id in TeamOf(s, root)
    ensures Up(TeamOf(s, root), id, n) == Up(s, id, n)
    decreases n
  {
    if n > 0 && s[id].parent != "" {
      assert Hangs(s, s[id]);
      UpInTeam(s, root, s[id].parent, n - 1);
    }
  }

  /** Looking at the team alone finds the same ancestors as looking at every thread. */
  lemma SameAncestorsInTeam(s: Team, root: string, ancestor: string, id: string)
    requires Forest(s) && root in s && s[root].parent == "" && id in TeamOf(s, root)
    ensures AncestorOf(TeamOf(s, root), ancestor, id) <==> AncestorOf(s, ancestor, id)
  {
    if AncestorOf(TeamOf(s, root), ancestor, id) {
      var n: nat :| n >= 1 && Up(TeamOf(s, root), id, n) == Some(ancestor);
      UpInTeam(s, root, id, n);
    }
    if AncestorOf(s, ancestor, id) {
      var n: nat :| n >= 1 && Up(s, id, n) == Some(ancestor);
      UpInTeam(s, root, id, n);
    }
  }

  lemma {:induction false} UpIsHigher(s: Team, id: string, n: nat)
    requires Forest(s) && id in s && Up(s, id, n).Some?
    ensures Up(s, id, n).value in s && s[Up(s, id, n).value].depth + n == s[id].depth
    ensures TeamRoot(s[Up(s, id, n).value]) == TeamRoot(s[id])
    decreases n
  {
    if n > 0 {
      assert Hangs(s, s[id]);
      UpIsHigher(s, s[id].parent, n - 1);
    }
  }

  /** No two members are each other's ancestors, and ancestors share the team. */
  lemma AncestryIsAcyclic(s: Team, a: string, b: string)
    requires Forest(s) && b in s && AncestorOf(s, a, b)
    ensures a in s && a != b && TeamRoot(s[a]) == TeamRoot(s[b]) && !AncestorOf(s, b, a)
  {
    var n: nat :| n >= 1 && Up(s, b, n) == Some(a);
    UpIsHigher(s, b, n);
    if AncestorOf(s, b, a) {
      var k: nat :| k >= 1 && Up(s, a, k) == Some(b);
      UpIsHigher(s, a, k);
    }
  }

  /** Deletion is from the leaves up: a root goes only when its team has no one else. */
  lemma RootIsDeletedLast(s: Team, root: string, id: string)
    requires Forest(s) && Delete(s, root).Done? && s[root].parent == ""
    requires id in s && TeamRoot(s[id]) == root
    ensures id == root
  {
    if id != root {
      assert Hangs(s, s[id]);
      RootIsAncestor(s, id);
      HasChildBelow(s, root, id);
    }
  }

  lemma {:induction false} HasChildBelow(s: Team, ancestor: string, id: string)
    requires Forest(s) && id in s && AncestorOf(s, ancestor, id)
    ensures Children(s, ancestor) != {}
    decreases s[id].depth
  {
    AncestorOfParent(s, ancestor, id);
    assert Hangs(s, s[id]);
    if s[id].parent == ancestor {
      assert id in Children(s, ancestor);
    } else {
      HasChildBelow(s, ancestor, s[id].parent);
    }
  }

  // ---- Routes between members ----

  datatype Route = Open(root: string) | MissingId | Itself | NoThread | CrossTeam | SiblingsOff

  /** Who may address whom, check by check. */
  ghost function RouteOf(s: Team, policy: string -> Policy, fromId: string, toId: string): Route {
    if fromId == "" || toId == "" then MissingId
    else if fromId == toId then Itself
    else if fromId !in s || toId !in s then NoThread
    else
      var root := TeamRoot(s[fromId]);
      if root != TeamRoot(s[toId]) then CrossTeam
      else if fromId != root && toId != root
              && !AncestorOf(s, fromId, toId) && !AncestorOf(s, toId, fromId)
              && !policy(root).allowSiblings
      then SiblingsOff
      else Open(root)
  }

  method AuthorizeTeamRoute(s: Team, policy: string -> Policy, fromId: string, toId: string) returns (r: Route)
    requires Forest(s)
    ensures r == RouteOf(s, policy, fromId, toId)
    ensures r.MissingId? <==> fromId == "" || toId == ""
    ensures r.Itself? <==> fromId == toId != ""
    ensures r.NoThread? ==> fromId !in s || toId !in s
    ensures r.CrossTeam? ==> fromId in s && toId in s && TeamRoot(s[fromId]) != TeamRoot(s[toId])
    ensures r.Open? ==> fromId in s && r.root == TeamRoot(s[fromId])
  {
    if fromId == "" || toId == "" {
      return MissingId;
    }
    if fromId == toId {
      return Itself;
    }
    if fromId !in s || toId !in s {
      return NoThread;
    }
    var rootId := TeamRoot(s[fromId]);
    if rootId != TeamRoot(s[toId]) {
      return CrossTeam;
    }
    RootIsTopmost(s, fromId);
    TeamIsForest(s, rootId);
    SameAncestorsInTeam(s, rootId, fromId, toId);
    SameAncestorsInTeam(s, rootId, toId, fromId);
    var byId := TeamOf(s, rootId);
    if fromId != rootId && toId != rootId {
      var above := IsAncestor(fromId, toId, byId);
      if !above {
        var below := IsAncestor(toId, fromId, byId);
        if !below && !policy(rootId).allowSiblings {
          return SiblingsOff;
        }
      }
    }
    return Open(rootId);
  }

  /**
   A route is open exactly between two different members of one team that are related by descent, or
   between any two of them if siblings may talk: the root needs no case of its own.
   */
  lemma RouteMeaning(s: Team, policy: string -> Policy, fromId: string, toId: string)
    requires Forest(s)
    ensures RouteOf(s, policy, fromId, toId).Open? <==>
            && fromId in s && toId in s && fromId != toId
            && TeamRoot(s[fromId]) == TeamRoot(s[toId])
            && (AncestorOf(s, fromId, toId) || AncestorOf(s, toId, fromId) || policy(TeamRoot(s[fromId])).allowSiblings)
  {
    if fromId in s && toId in s && fromId != toId && TeamRoot(s[fromId]) == TeamRoot(s[toId]) {
      assert Hangs(s, s[fromId]) && Hangs(s, s[toId]);
      if fromId == TeamRoot(s[toId]) {
        RootIsTopmost(s, toId);
        RootIsAncestor(s, toId);
      }
      if toId == TeamRoot(s[fromId]) {
        RootIsTopmost(s, fromId);
        RootIsAncestor(s, fromId);
      }
    }
  }

  lemma RouteIsSymmetric(s: Team, policy: string -> Policy, fromId: string, toId: string)
    requires Forest(s)
    ensures RouteOf(s, policy, fromId, toId) == RouteOf(s, policy, toId, fromId)
  {
  }
}
