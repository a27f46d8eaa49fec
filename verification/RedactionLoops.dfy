/** The in-place loops of redaction and restoration, each proved to compute its function of `Redaction`. */
module RedactionLoops {
  import opened Text
  import opened Redaction
  import opened Secrecy
  import opened Wrappers

  method Marks(key: string) returns (secret: bool)
    ensures secret == LooksSecret(key) && secret == SpellsSecret(key)
  {
    LooksSecretIff(key);
    hide SpellsSecret;
    var normalized := Underscored(ToLower(key));
    for i := 0 to |SECRET_MARKERS|
      invariant forall j :: 0 <= j < i ==> !Contains(normalized, SECRET_MARKERS[j])
    {
      var found := Search(normalized, SECRET_MARKERS[i]);
      if found {
        return true;
      }
    }
    return false;
  }

  method Search(s: string, part: string) returns (found: bool)
    ensures found == Contains(s, part)
  {
    for i := 0 to |s| + 1
      invariant forall j :: 0 <= j < i ==> !HasPrefix(s[j..], part)
    {
      if |part| <= |s[i..]| && s[i..][..|part|] == part {
        return true;
      }
    }
    return false;
  }

  method RedactValues(values: Values, explicit: seq<string>) returns (shown: Values)
    ensures shown == Redact(values, explicit)
  {
    shown := values;
    var todo := values.Keys;
    while todo != {}
      invariant todo <= values.Keys && shown.Keys == values.Keys
      invariant forall k :: k in values ==>
                  shown[k] == if k !in todo && IsSecret(k, explicit) then REDACTED_VALUE else values[k]
      decreases |todo|
    {
      var key :| key in todo;
      var secret := Marks(key);
      if key in explicit || secret {
        shown := shown[key := REDACTED_VALUE];
      }
      todo := todo - {key};
    }
  }

  method RedactServers(servers: map<string, Server>) returns (shown: map<string, Server>)
    ensures shown == PublicServers(servers)
  {
    shown := servers;
    var todo := servers.Keys;
    while todo != {}
      invariant todo <= servers.Keys == shown.Keys
      invariant forall n :: n in shown ==> shown[n] == if n in todo then servers[n] else PublicServer(servers[n])
      decreases |todo|
    {
      var name :| name in todo;
      var server := shown[name];
      var env := RedactValues(server.env, server.secretEnv);
      var headers := RedactValues(server.headers, server.secretHeaders);
      shown := shown[name := server.(env := env, headers := headers)];
      todo := todo - {name};
    }
  }

  method RedactSources(sources: map<string, Source>) returns (shown: map<string, Source>)
    ensures shown == PublicSources(sources)
  {
    shown := sources;
    var todo := sources.Keys;
    while todo != {}
      invariant todo <= sources.Keys == shown.Keys
      invariant forall n :: n in shown ==> shown[n] == if n in todo then sources[n] else PublicSource(sources[n])
      decreases |todo|
    {
      var name :| name in todo;
      var env := RedactValues(shown[name].env, shown[name].secretEnv);
      shown := shown[name := shown[name].(env := env)];
      todo := todo - {name};
    }
  }

  method RedactSettings(settings: Settings) returns (shown: Settings)
    ensures shown == PublicSettings(settings)
  {
    var servers := RedactServers(settings.servers);
    var sources := RedactSources(settings.sources);
    shown := settings.(servers := servers, sources := sources);
  }

  /** Adding to a list while visiting keys in order. */
  lemma AddAllStep(list: seq<string>, keys: seq<string>, i: nat, wanted: string -> bool)
    requires i < |keys|
    ensures AddAll(list, keys[..i + 1], wanted) ==
            if wanted(keys[i]) then AddUnique(AddAll(list, keys[..i], wanted), keys[i])
            else AddAll(list, keys[..i], wanted)
  {
    assert keys[..i + 1][..i] == keys[..i];
  }

  /** The values after visiting `keys`. */
  function Visited(candidate: Values, keys: seq<string>, prev: Values): Values {
    if keys == [] then candidate
    else
      var n := |keys| - 1;
      var before := Visited(candidate, keys[..n], prev);
      if keys[n] in candidate && candidate[keys[n]] == REDACTED_VALUE && keys[n] in prev
      then before[keys[n] := prev[keys[n]]] else before
  }

  lemma {:induction false} VisitedRestores(candidate: Values, keys: seq<string>, prev: Values)
    ensures Visited(candidate, keys, prev).Keys == candidate.Keys
    ensures forall k :: k in candidate ==>
              Visited(candidate, keys, prev)[k] == if k in keys then Restore(candidate, prev)[k] else candidate[k]
  {
    if keys != [] {
      var n := |keys| - 1;
      VisitedRestores(candidate, keys[..n], prev);
      assert keys == keys[..n] + [keys[n]];
    }
  }

  lemma VisitedAll(candidate: Values, keys: seq<string>, prev: Values)
    requires forall k :: k in keys <==> k in candidate
    ensures Visited(candidate, keys, prev) == Restore(candidate, prev)
  {
    VisitedRestores(candidate, keys, prev);
  }

  lemma VisitedStep(candidate: Values, keys: seq<string>, prev: Values, i: nat)
    requires i < |keys| && keys[i] in candidate
    ensures
      var before, key := Visited(candidate, keys[..i], prev), keys[i];
      Visited(candidate, keys[..i + 1], prev) ==
      if candidate[key] == REDACTED_VALUE && key in prev then before[key := prev[key]] else before
  {
    assert keys[..i + 1][..i] == keys[..i];
  }

  /** The loop of `restoreServer` over one map of values: values and secret marks come back together. */
  method RestoreMarked(candidate: Values, marked: seq<string>, prev: Values, prevMarked: seq<string>, order: Order)
    returns (values: Values, marks: seq<string>)
    requires Enumerates(order)
    ensures values == Restore(candidate, prev)
    ensures marks == RestoreMarks(candidate, marked, prev, prevMarked, order)
  {
    values, marks := candidate, marked;
    var keys := order(candidate.Keys);
    ghost var wanted := k => k in candidate && candidate[k] == REDACTED_VALUE && k in prev && k in prevMarked;
    assert marks == AddAll(marked, [], wanted) && values == Visited(candidate, [], prev);
    assert RestoreMarks(candidate, marked, prev, prevMarked, order) == AddAll(marked, keys, wanted);
    VisitedAll(candidate, keys, prev);
    hide Visited, AddAll, AddUnique, Restore, RestoreMarks;
    assert keys[..0] == [];
    for i := 0 to |keys|
      invariant values == Visited(candidate, keys[..i], prev)
      invariant marks == AddAll(marked, keys[..i], wanted)
    {
      var key := keys[i];
      assert key in candidate;
      AddAllStep(marked, keys, i, wanted);
      VisitedStep(candidate, keys, prev, i);
      if candidate[key] == REDACTED_VALUE && key in prev {
        values := values[key := prev[key]];
        if key in prevMarked {
          marks := AddUnique(marks, key);
        }
      }
    }
    assert keys[..|keys|] == keys;
  }

  /** The loops of `restoreServerPatch` over one optional map: values first, then the marks of unchanged ones. */
  method RestorePatchValues(candidate: Option<Values>, marked: Option<seq<string>>, prev: Option<Values>,
                            prevMarked: Option<seq<string>>, order: Order)
    returns (values: Option<Values>, marks: Option<seq<string>>)
    requires Enumerates(order)
    ensures values == RestoreSome(candidate, prev)
    ensures marks == RestorePatchMarks(candidate, marked, prev, prevMarked, order)
  {
    values, marks := candidate, marked;
    if candidate.None? || prev.None? {
      return;
    }
    var restored, _ := RestoreMarked(candidate.value, [], prev.value, [], order);
    values := Some(restored);
    if prevMarked.None? {
      return;
    }
    var keys := order(restored.Keys);
    ghost var wanted := (k: string) => k in restored && restored[k] == Get(prev.value, k) && k in prevMarked.value;
    for i := 0 to |keys|
      invariant Listed(marks) == AddAll(Listed(marked), keys[..i], wanted)
      invariant marks.None? ==> marked.None?
      invariant marked.None? && Listed(marks) == [] ==> marks.None?
    {
      var key := keys[i];
      AddAllStep(Listed(marked), keys, i, wanted);
      assert key in restored;
      if restored[key] == Get(prev.value, key) && key in prevMarked.value {
        marks := Some(AddUnique(Listed(marks), key));
      }
    }
    assert keys[..|keys|] == keys;
  }

  method RestoreInServers(candidate: map<string, Server>, prev: map<string, Server>, order: Order)
    returns (servers: map<string, Server>)
    requires Enumerates(order)
    ensures servers == RestoreServers(candidate, prev, order)
  {
    servers := candidate;
    var todo := candidate.Keys;
    ghost var target := RestoreServers(candidate, prev, order);
    while todo != {}
      invariant todo <= candidate.Keys == servers.Keys
      invariant forall n :: n in servers ==> servers[n] == if n in todo then candidate[n] else target[n]
      decreases |todo|
    {
      var name :| name in todo;
      todo := todo - {name};
      if name in prev {
        var server := RestoreOneServer(servers[name], prev[name], order);
        servers := servers[name := server];
      }
    }
  }

  method RestoreOneServer(server: Server, before: Server, order: Order) returns (restored: Server)
    requires Enumerates(order)
    ensures restored == RestoreServer(server, before, order)
  {
    var env, secretEnv := RestoreMarked(server.env, server.secretEnv, before.env, before.secretEnv, order);
    var headers, secretHeaders :=
      RestoreMarked(server.headers, server.secretHeaders, before.headers, before.secretHeaders, order);
    restored := server.(env := env, secretEnv := secretEnv, headers := headers, secretHeaders := secretHeaders);
  }

  method RestoreOneServerPatch(patch: ServerPatch, before: ServerPatch, order: Order) returns (restored: ServerPatch)
    requires Enumerates(order)
    ensures restored == RestoreServerPatch(patch, before, order)
  {
    var env, secretEnv := RestorePatchValues(patch.env, patch.secretEnv, before.env, before.secretEnv, order);
    var headers, secretHeaders :=
      RestorePatchValues(patch.headers, patch.secretHeaders, before.headers, before.secretHeaders, order);
    restored := patch.(env := env, secretEnv := secretEnv, headers := headers, secretHeaders := secretHeaders);
  }

  method RestoreOneSource(source: Source, before: Source, order: Order) returns (restored: Source)
    requires Enumerates(order)
    ensures restored == RestoreSource(source, before, order)
  {
    var env, secretEnv := RestoreMarked(source.env, source.secretEnv, before.env, before.secretEnv, order);
    restored := source.(env := env, secretEnv := secretEnv);
  }

  method RestoreOneSourcePatch(patch: SourcePatch, before: SourcePatch, order: Order) returns (restored: SourcePatch)
    requires Enumerates(order)
    ensures restored == RestoreSourcePatch(patch, before, order)
  {
    var env, secretEnv := RestorePatchValues(patch.env, patch.secretEnv, before.env, before.secretEnv, order);
    restored := patch.(env := env, secretEnv := secretEnv);
  }

  method RestoreInSources(candidate: map<string, Source>, prev: map<string, Source>, order: Order)
    returns (sources: map<string, Source>)
    requires Enumerates(order)
    ensures sources == RestoreSources(candidate, prev, order)
  {
    sources := candidate;
    var todo := candidate.Keys;
    ghost var target := RestoreSources(candidate, prev, order);
    while todo != {}
      invariant todo <= candidate.Keys == sources.Keys
      invariant forall n :: n in sources ==> sources[n] == if n in todo then candidate[n] else target[n]
      decreases |todo|
    {
      var name :| name in todo;
      todo := todo - {name};
      if name in prev {
        var source := RestoreOneSource(sources[name], prev[name], order);
        sources := sources[name := source];
      }
    }
  }

  method RestoreInMcp(candidate: McpPatch, prev: McpPatch, order: Order) returns (restored: McpPatch)
    requires Enumerates(order)
    ensures Some(restored) == RestoreMcp(Some(candidate), Some(prev), order)
  {
    var servers := candidate.servers;
    var todo := servers.Keys;
    ghost var target := RestoreMcp(Some(candidate), Some(prev), order).value.servers;
    while todo != {}
      invariant todo <= candidate.servers.Keys == servers.Keys
      invariant forall n :: n in servers ==> servers[n] == if n in todo then candidate.servers[n] else target[n]
      decreases |todo|
    {
      var name :| name in todo;
      todo := todo - {name};
      if name in prev.servers {
        var patch := RestoreOneServerPatch(servers[name], prev.servers[name], order);
        servers := servers[name := patch];
      }
    }
    assert servers == target;
    restored := candidate.(servers := servers);
  }

  method RestoreInExtensions(candidate: ExtensionPatch, prev: ExtensionPatch, order: Order)
    returns (restored: ExtensionPatch)
    requires Enumerates(order)
    ensures Some(restored) == RestoreExtensions(Some(candidate), Some(prev), order)
  {
    var sources := candidate.sources;
    var todo := sources.Keys;
    ghost var target := RestoreExtensions(Some(candidate), Some(prev), order).value.sources;
    while todo != {}
      invariant todo <= candidate.sources.Keys == sources.Keys
      invariant forall n :: n in sources ==> sources[n] == if n in todo then candidate.sources[n] else target[n]
      decreases |todo|
    {
      var name :| name in todo;
      todo := todo - {name};
      if name in prev.sources {
        var patch := RestoreOneSourcePatch(sources[name], prev.sources[name], order);
        sources := sources[name := patch];
      }
    }
    assert sources == target;
    restored := candidate.(sources := sources);
  }

  method RestoreOneProject(project: Project, previous: Project, order: Order) returns (restored: Project)
    requires Enumerates(order)
    ensures restored == RestoreProject(project, previous, order)
  {
    var mcp, extensions := project.settings.mcp, project.settings.extensions;
    if mcp.Some? && previous.settings.mcp.Some? {
      var inside := RestoreInMcp(mcp.value, previous.settings.mcp.value, order);
      mcp := Some(inside);
    }
    if extensions.Some? && previous.settings.extensions.Some? {
      var inside := RestoreInExtensions(extensions.value, previous.settings.extensions.value, order);
      extensions := Some(inside);
    }
    restored := project.(settings := project.settings.(mcp := mcp, extensions := extensions));
  }

  /** The whole restoration of a candidate document. */
  method RestoreRedacted(candidate: Config, prev: Config, order: Order) returns (restored: Config)
    requires Enumerates(order)
    ensures restored == Restored(candidate, prev, order)
  {
    var servers := RestoreInServers(candidate.global.servers, prev.global.servers, order);
    var sources := RestoreInSources(candidate.global.sources, prev.global.sources, order);
    var projects := candidate.projects;
    var todo := projects.Keys;
    ghost var target := Restored(candidate, prev, order).projects;
    while todo != {}
      invariant todo <= candidate.projects.Keys == projects.Keys
      invariant forall id :: id in projects ==>
                  projects[id] == if id in todo then candidate.projects[id] else target[id]
      decreases |todo|
    {
      var id :| id in todo;
      todo := todo - {id};
      if id in prev.projects {
        var project := RestoreOneProject(projects[id], prev.projects[id], order);
        projects := projects[id := project];
      }
    }
    assert projects == target;
    restored := candidate.(global := candidate.global.(servers := servers, sources := sources), projects := projects);
  }

  // ---- The public view of a whole document ----

  method RedactOptional(values: Option<Values>, marked: Option<seq<string>>) returns (shown: Option<Values>)
    ensures shown == RedactSome(values, marked)
  {
    if values.None? {
      return None;
    }
    var secret := if marked.Some? then marked.value else [];
    var redacted := RedactValues(values.value, secret);
    return Some(redacted);
  }

  method RedactServerPatches(patches: map<string, ServerPatch>) returns (shown: map<string, ServerPatch>)
    ensures shown == map n | n in patches :: PublicServerPatch(patches[n])
  {
    shown := patches;
    var todo := patches.Keys;
    while todo != {}
      invariant todo <= patches.Keys == shown.Keys
      invariant forall n :: n in shown ==> shown[n] == if n in todo then patches[n] else PublicServerPatch(patches[n])
      decreases |todo|
    {
      var name :| name in todo;
      var patch := shown[name];
      var env := RedactOptional(patch.env, patch.secretEnv);
      var headers := RedactOptional(patch.headers, patch.secretHeaders);
      shown := shown[name := patch.(env := env, headers := headers)];
      todo := todo - {name};
    }
  }

  method RedactSourcePatches(patches: map<string, SourcePatch>) returns (shown: map<string, SourcePatch>)
    ensures shown == map n | n in patches :: PublicSourcePatch(patches[n])
  {
    shown := patches;
    var todo := patches.Keys;
    while todo != {}
      invariant todo <= patches.Keys == shown.Keys
      invariant forall n :: n in shown ==> shown[n] == if n in todo then patches[n] else PublicSourcePatch(patches[n])
      decreases |todo|
    {
      var name :| name in todo;
      var env := RedactOptional(shown[name].env, shown[name].secretEnv);
      shown := shown[name := shown[name].(env := env)];
      todo := todo - {name};
    }
  }

  method RedactProject(project: Project) returns (shown: Project)
    ensures shown == PublicProject(project)
  {
    var mcp, extensions := project.settings.mcp, project.settings.extensions;
    if mcp.Some? {
      var servers := RedactServerPatches(mcp.value.servers);
      mcp := Some(mcp.value.(servers := servers));
    }
    if extensions.Some? {
      var sources := RedactSourcePatches(extensions.value.sources);
      extensions := Some(extensions.value.(sources := sources));
    }
    shown := project.(settings := project.settings.(mcp := mcp, extensions := extensions));
  }

  /** The public view of a whole document. */
  method PublicConfig(raw: Config) returns (shown: Config)
    ensures shown == Public(raw)
  {
    var global := RedactSettings(raw.global);
    var projects := raw.projects;
    var todo := projects.Keys;
    while todo != {}
      invariant todo <= raw.projects.Keys == projects.Keys
      invariant forall id :: id in projects ==>
                  projects[id] == if id in todo then raw.projects[id] else PublicProject(raw.projects[id])
      decreases |todo|
    {
      var id :| id in todo;
      var project := RedactProject(projects[id]);
      projects := projects[id := project];
      todo := todo - {id};
    }
    assert projects == map id | id in raw.projects :: PublicProject(raw.projects[id]);
    shown := raw.(global := global, projects := projects);
  }
}
