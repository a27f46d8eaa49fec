/** The in-place loops that lay a project's patch over the global settings. */
module ConfigMerge {
  import opened Redaction
  import opened ConfigStore
  import opened Wrappers

  /** The servers once the patches named in `done` are applied. */
  function PatchedServers(dst: map<string, Server>, patches: map<string, ServerPatch>, done: set<string>)
    : map<string, Server>
  {
    map n | n in dst.Keys + (patches.Keys * done) ::
      if n in patches && n in done then ApplyServer(ServerOrEmpty(dst, n), patches[n]) else dst[n]
  }

  lemma OneMoreServer(dst: map<string, Server>, patches: map<string, ServerPatch>, todo: set<string>, name: string)
    requires name in patches && name in todo
    ensures
      var servers := PatchedServers(dst, patches, patches.Keys - todo);
      PatchedServers(dst, patches, patches.Keys - (todo - {name})) ==
      servers[name := ApplyServer(ServerOrEmpty(servers, name), patches[name])]
  {
  }

  lemma NoneAndAllServers(dst: map<string, Server>, patches: map<string, ServerPatch>)
    ensures PatchedServers(dst, patches, patches.Keys - patches.Keys) == dst
    ensures PatchedServers(dst, patches, patches.Keys - {}) == PatchedServers(dst, patches, patches.Keys)
  {
  }

  /** Every patched server is changed or made, then every listed one removed. */
  method ApplyMcpPatch(dst: map<string, Server>, patch: Option<McpPatch>) returns (servers: map<string, Server>)
    ensures servers == ApplyMcp(dst, patch)
  {
    servers := dst;
    if patch.None? {
      return;
    }
    servers := ApplyServerPatches(dst, patch.value.servers);
    servers := RemoveServers(servers, patch.value.removed);
  }

  method ApplyServerPatches(dst: map<string, Server>, patches: map<string, ServerPatch>)
    returns (servers: map<string, Server>)
    ensures servers == PatchedServers(dst, patches, patches.Keys)
  {
    servers := dst;
    var todo := patches.Keys;
    NoneAndAllServers(dst, patches);
    while todo != {}
      invariant todo <= patches.Keys
      invariant servers == PatchedServers(dst, patches, patches.Keys - todo)
      decreases |todo|
    {
      var name :| name in todo;
      OneMoreServer(dst, patches, todo, name);
      servers := servers[name := ApplyServer(ServerOrEmpty(servers, name), patches[name])];
      todo := todo - {name};
    }
  }

  method RemoveServers(dst: map<string, Server>, removed: seq<string>) returns (servers: map<string, Server>)
    ensures servers == map n | n in dst && n !in removed :: dst[n]
  {
    servers := dst;
    for i := 0 to |removed|
      invariant servers == map n | n in dst && n !in removed[..i] :: dst[n]
    {
      assert removed[..i + 1] == removed[..i] + [removed[i]];
      servers := servers - {removed[i]};
    }
    assert removed[..|removed|] == removed;
  }

  function PatchedSources(dst: map<string, Source>, patches: map<string, SourcePatch>, done: set<string>)
    : map<string, Source>
  {
    map n | n in dst.Keys + (patches.Keys * done) ::
      if n in patches && n in done then ApplySource(SourceOrEmpty(dst, n), patches[n]) else dst[n]
  }

  lemma OneMoreSource(dst: map<string, Source>, patches: map<string, SourcePatch>, todo: set<string>, name: string)
    requires name in patches && name in todo
    ensures
      var sources := PatchedSources(dst, patches, patches.Keys - todo);
      PatchedSources(dst, patches, patches.Keys - (todo - {name})) ==
      sources[name := ApplySource(SourceOrEmpty(sources, name), patches[name])]
  {
  }

  lemma NoneAndAllSources(dst: map<string, Source>, patches: map<string, SourcePatch>)
    ensures PatchedSources(dst, patches, patches.Keys - patches.Keys) == dst
    ensures PatchedSources(dst, patches, patches.Keys - {}) == PatchedSources(dst, patches, patches.Keys)
  {
  }

  method ApplyExtensionPatch(dst: map<string, Source>, patch: Option<ExtensionPatch>)
    returns (sources: map<string, Source>)
    ensures sources == ApplyExtensions(dst, patch)
  {
    sources := dst;
    if patch.None? {
      return;
    }
    sources := ApplySourcePatches(dst, patch.value.sources);
    sources := RemoveSources(sources, patch.value.removed);
  }

  method ApplySourcePatches(dst: map<string, Source>, patches: map<string, SourcePatch>)
    returns (sources: map<string, Source>)
    ensures sources == PatchedSources(dst, patches, patches.Keys)
  {
    sources := dst;
    var todo := patches.Keys;
    NoneAndAllSources(dst, patches);
    while todo != {}
      invariant todo <= patches.Keys
      invariant sources == PatchedSources(dst, patches, patches.Keys - todo)
      decreases |todo|
    {
      var name :| name in todo;
      OneMoreSource(dst, patches, todo, name);
      sources := sources[name := ApplySource(SourceOrEmpty(sources, name), patches[name])];
      todo := todo - {name};
    }
  }

  method RemoveSources(dst: map<string, Source>, removed: seq<string>) returns (sources: map<string, Source>)
    ensures sources == map n | n in dst && n !in removed :: dst[n]
  {
    sources := dst;
    for i := 0 to |removed|
      invariant sources == map n | n in dst && n !in removed[..i] :: dst[n]
    {
      assert removed[..i + 1] == removed[..i] + [removed[i]];
      sources := sources - {removed[i]};
    }
    assert removed[..|removed|] == removed;
  }

  function MergedSection(section: Values, patch: map<string, Values>, name: string): Values {
    if name in patch then section + patch[name] else section
  }

  method ApplyOtherPatch(dst: map<string, Values>, patch: map<string, Values>) returns (sections: map<string, Values>)
    ensures sections == ApplyOther(dst, patch)
  {
    sections := dst;
    var todo := dst.Keys;
    while todo != {}
      invariant todo <= dst.Keys == sections.Keys
      invariant forall n :: n in sections ==>
                  sections[n] == if n in todo then dst[n] else MergedSection(dst[n], patch, n)
      decreases |todo|
    {
      var name :| name in todo;
      sections := sections[name := MergedSection(sections[name], patch, name)];
      todo := todo - {name};
    }
  }

  method EffectiveSettings(config: Config, projectId: string) returns (settings: Settings, known: bool)
    ensures settings == Effective(config, projectId) && known == (projectId in config.projects)
  {
    settings := config.global;
    if projectId !in config.projects {
      return settings, false;
    }
    var patch := config.projects[projectId].settings;
    var tools := ApplyTools(settings.tools, patch.tools);
    var servers := ApplyMcpPatch(settings.servers, patch.mcp);
    var sources := ApplyExtensionPatch(settings.sources, patch.extensions);
    var other := ApplyOtherPatch(settings.other, patch.other);
    if patch.extensions.Some? && patch.extensions.value.allowUnsigned.Some? {
      settings := settings.(allowUnsigned := patch.extensions.value.allowUnsigned.value);
    }
    settings := settings.(tools := tools, servers := servers, sources := sources, other := other);
    return settings, true;
  }

  /**
   Each field, and each of the four tables, is the patch's where the patch has one and the inherited one elsewhere.
   */
  ghost predicate Overlays(server: Server, patch: ServerPatch, inherited: Server) {
    && (forall f :: f in patch.fields ==> f in server.fields && server.fields[f] == patch.fields[f])
    && (forall f :: f !in patch.fields ==>
          (f in server.fields <==> f in inherited.fields)
          && (f in server.fields ==> server.fields[f] == inherited.fields[f]))
    && server.env == (if patch.env.Some? then patch.env.value else inherited.env)
    && server.secretEnv == (if patch.secretEnv.Some? then patch.secretEnv.value else inherited.secretEnv)
    && server.headers == (if patch.headers.Some? then patch.headers.value else inherited.headers)
    && server.secretHeaders ==
      (if patch.secretHeaders.Some? then patch.secretHeaders.value else inherited.secretHeaders)
  }

  /** Which servers a project has and what each is: removed, inherited unchanged, patched, or made by the patch. */
  lemma PatchedServerMeans(config: Config, id: string, name: string)
    requires id in config.projects && config.projects[id].settings.mcp.Some?
    ensures
      var patch := config.projects[id].settings.mcp.value;
      var servers, global := Effective(config, id).servers, config.global.servers;
      && (name in servers <==> name !in patch.removed && (name in patch.servers || name in global))
      && (name in servers && name !in patch.servers ==> servers[name] == global[name])
      && (name in servers && name in patch.servers ==>
            Overlays(servers[name], patch.servers[name],
                     if name in global then global[name] else Server(map[], map[], [], map[], [])))
  {
  }
}
