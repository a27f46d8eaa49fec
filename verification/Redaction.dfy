/** The configuration document, the public view of it, and the restoration of what the view hides. */
module Redaction {
  import opened Text
  import opened Wrappers

  type Values = map<string, string>

  /** Fields that redaction does not touch are kept by name in `fields`. */
  datatype Server = Server(
    fields: Values,
    env: Values,
    secretEnv: seq<string>,
    headers: Values,
    secretHeaders: seq<string>)

  datatype Source = Source(fields: Values, env: Values, secretEnv: seq<string>)

  datatype ServerPatch = ServerPatch(
    fields: Values,
    env: Option<Values>,
    secretEnv: Option<seq<string>>,
    headers: Option<Values>,
    secretHeaders: Option<seq<string>>)

  datatype SourcePatch = SourcePatch(fields: Values, env: Option<Values>, secretEnv: Option<seq<string>>)

  datatype McpPatch = McpPatch(servers: map<string, ServerPatch>, removed: seq<string>)

  datatype ExtensionPatch = ExtensionPatch(
    sources: map<string, SourcePatch>, removed: seq<string>, allowUnsigned: Option<bool>)

  datatype Tools = Tools(enabled: seq<string>, sandbox: string, approval: string)

  datatype ToolPatch = ToolPatch(enabled: Option<seq<string>>, sandbox: Option<string>, approval: Option<string>)

  /** `other` holds the sections that consist of independent fields only. */
  datatype Settings = Settings(
    tools: Tools,
    servers: map<string, Server>,
    sources: map<string, Source>,
    allowUnsigned: bool,
    other: map<string, Values>)

  datatype SettingsPatch = SettingsPatch(
    tools: Option<ToolPatch>,
    mcp: Option<McpPatch>,
    extensions: Option<ExtensionPatch>,
    other: map<string, Values>)

  datatype Project = Project(folder: string, settings: SettingsPatch)

  datatype Config = Config(version: nat, revision: nat, global: Settings, projects: map<string, Project>)

  const REDACTED_VALUE := "[redacted]"

  const SECRET_MARKERS := ["authorization", "credential", "password", "passwd", "secret", "token", "api_key", "cookie"]

  function Underscored(s: string): string {
    seq(|s|, i requires 0 <= i < |s| => if s[i] == '-' || s[i] == ' ' then '_' else s[i])
  }

  predicate LooksSecret(key: string) {
    exists i :: 0 <= i < |SECRET_MARKERS| && Contains(Underscored(ToLower(key)), SECRET_MARKERS[i])
  }

  predicate IsSecret(key: string, marked: seq<string>) {
    key in marked || LooksSecret(key)
  }

  function Listed(marked: Option<seq<string>>): seq<string> {
    if marked.Some? then marked.value else []
  }

  function Redact(values: Values, marked: seq<string>): Values {
    map k | k in values :: if IsSecret(k, marked) then REDACTED_VALUE else values[k]
  }

  function RedactSome(values: Option<Values>, marked: Option<seq<string>>): Option<Values> {
    if values.Some? then Some(Redact(values.value, Listed(marked))) else None
  }

  function PublicServer(s: Server): Server {
    s.(env := Redact(s.env, s.secretEnv), headers := Redact(s.headers, s.secretHeaders))
  }

  function PublicSource(s: Source): Source {
    s.(env := Redact(s.env, s.secretEnv))
  }

  function PublicServerPatch(p: ServerPatch): ServerPatch {
    p.(env := RedactSome(p.env, p.secretEnv), headers := RedactSome(p.headers, p.secretHeaders))
  }

  function PublicSourcePatch(p: SourcePatch): SourcePatch {
    p.(env := RedactSome(p.env, p.secretEnv))
  }

  function PublicServers(servers: map<string, Server>): map<string, Server> {
    map n | n in servers :: PublicServer(servers[n])
  }

  function PublicSources(sources: map<string, Source>): map<string, Source> {
    map n | n in sources :: PublicSource(sources[n])
  }

  function PublicSettings(s: Settings): Settings {
    s.(servers := PublicServers(s.servers), sources := PublicSources(s.sources))
  }

  function PublicMcp(p: McpPatch): McpPatch {
    p.(servers := map n | n in p.servers :: PublicServerPatch(p.servers[n]))
  }

  function PublicExtensions(p: ExtensionPatch): ExtensionPatch {
    p.(sources := map n | n in p.sources :: PublicSourcePatch(p.sources[n]))
  }

  function PublicProject(p: Project): Project {
    var s := p.settings;
    p.(settings := s.(
         mcp := if s.mcp.Some? then Some(PublicMcp(s.mcp.value)) else None,
         extensions := if s.extensions.Some? then Some(PublicExtensions(s.extensions.value)) else None))
  }

  /** What every reader of the store gets to see. */
  function Public(c: Config): Config {
    c.(global := PublicSettings(c.global), projects := map id | id in c.projects :: PublicProject(c.projects[id]))
  }

  /** The order in which Go visits the keys of a map: any enumeration. */
  type Order = set<string> -> seq<string>

  ghost predicate Enumerates(order: Order) {
    forall keys, k :: k in order(keys) <==> k in keys
  }

  function AddUnique(list: seq<string>, key: string): seq<string> {
    if key in list then list else list + [key]
  }

  function AddAll(list: seq<string>, keys: seq<string>, wanted: string -> bool): seq<string> {
    if keys == [] then list
    else
      var n := |keys| - 1;
      var before := AddAll(list, keys[..n], wanted);
      if wanted(keys[n]) then AddUnique(before, keys[n]) else before
  }

  function Restore(candidate: Values, prev: Values): Values {
    map k | k in candidate :: if candidate[k] == REDACTED_VALUE && k in prev then prev[k] else candidate[k]
  }

  function RestoreMarks(candidate: Values, marked: seq<string>, prev: Values, prevMarked: seq<string>, order: Order)
    : seq<string>
  {
    AddAll(marked, order(candidate.Keys),
           k => k in candidate && candidate[k] == REDACTED_VALUE && k in prev && k in prevMarked)
  }

  function Get(values: Values, key: string): string {
    if key in values then values[key] else ""
  }

  function RestorePatchMarks(candidate: Option<Values>, marked: Option<seq<string>>, prev: Option<Values>,
                             prevMarked: Option<seq<string>>, order: Order): Option<seq<string>>
  {
    if candidate.None? || prev.None? || prevMarked.None? then marked
    else
      var values := Restore(candidate.value, prev.value);
      var wanted := (k: string) => k in values && values[k] == Get(prev.value, k) && k in prevMarked.value;
      var all := AddAll(Listed(marked), order(values.Keys), wanted);
      if marked.None? && all == [] then None else Some(all)
  }

  function RestoreSome(candidate: Option<Values>, prev: Option<Values>): Option<Values> {
    if candidate.Some? && prev.Some? then Some(Restore(candidate.value, prev.value)) else candidate
  }

  function RestoreServer(c: Server, prev: Server, order: Order): Server {
    c.(env := Restore(c.env, prev.env),
       secretEnv := RestoreMarks(c.env, c.secretEnv, prev.env, prev.secretEnv, order),
       headers := Restore(c.headers, prev.headers),
       secretHeaders := RestoreMarks(c.headers, c.secretHeaders, prev.headers, prev.secretHeaders, order))
  }

  function RestoreSource(c: Source, prev: Source, order: Order): Source {
    c.(env := Restore(c.env, prev.env), secretEnv := RestoreMarks(c.env, c.secretEnv, prev.env, prev.secretEnv, order))
  }

  function RestoreServerPatch(c: ServerPatch, prev: ServerPatch, order: Order): ServerPatch {
    c.(env := RestoreSome(c.env, prev.env),
       secretEnv := RestorePatchMarks(c.env, c.secretEnv, prev.env, prev.secretEnv, order),
       headers := RestoreSome(c.headers, prev.headers),
       secretHeaders := RestorePatchMarks(c.headers, c.secretHeaders, prev.headers, prev.secretHeaders, order))
  }

  function RestoreSourcePatch(c: SourcePatch, prev: SourcePatch, order: Order): SourcePatch {
    c.(env := RestoreSome(c.env, prev.env),
       secretEnv := RestorePatchMarks(c.env, c.secretEnv, prev.env, prev.secretEnv, order))
  }

  function RestoreServers(c: map<string, Server>, prev: map<string, Server>, order: Order): map<string, Server> {
    map n | n in c :: if n in prev then RestoreServer(c[n], prev[n], order) else c[n]
  }

  function RestoreSources(c: map<string, Source>, prev: map<string, Source>, order: Order): map<string, Source> {
    map n | n in c :: if n in prev then RestoreSource(c[n], prev[n], order) else c[n]
  }

  function RestoreSettings(c: Settings, prev: Settings, order: Order): Settings {
    c.(servers := RestoreServers(c.servers, prev.servers, order),
       sources := RestoreSources(c.sources, prev.sources, order))
  }

  function RestoreMcp(c: Option<McpPatch>, prev: Option<McpPatch>, order: Order): Option<McpPatch> {
    if c.None? || prev.None? then c
    else
      Some(c.value.(servers := map n | n in c.value.servers ::
        if n in prev.value.servers then RestoreServerPatch(c.value.servers[n], prev.value.servers[n], order)
        else c.value.servers[n]))
  }

  function RestoreExtensions(c: Option<ExtensionPatch>, prev: Option<ExtensionPatch>,
                             order: Order): Option<ExtensionPatch> {
    if c.None? || prev.None? then c
    else
      Some(c.value.(sources := map n | n in c.value.sources ::
        if n in prev.value.sources then RestoreSourcePatch(c.value.sources[n], prev.value.sources[n], order)
        else c.value.sources[n]))
  }

  function RestoreProject(c: Project, prev: Project, order: Order): Project {
    c.(settings := c.settings.(
         mcp := RestoreMcp(c.settings.mcp, prev.settings.mcp, order),
         extensions := RestoreExtensions(c.settings.extensions, prev.settings.extensions, order)))
  }

  /** The candidate with every kept placeholder replaced by the old value at the same place. */
  function Restored(c: Config, prev: Config, order: Order): Config {
    c.(global := RestoreSettings(c.global, prev.global, order),
       projects := map id | id in c.projects ::
         if id in prev.projects then RestoreProject(c.projects[id], prev.projects[id], order) else c.projects[id])
  }

  lemma {:induction false} AddAllMembers(list: seq<string>, keys: seq<string>, wanted: string -> bool)
    ensures forall k :: k in AddAll(list, keys, wanted) <==> k in list || (k in keys && wanted(k))
    ensures (forall k :: k in keys && wanted(k) ==> k in list) ==> AddAll(list, keys, wanted) == list
  {
    if keys != [] {
      AddAllMembers(list, keys[..|keys| - 1], wanted);
      assert keys == keys[..|keys| - 1] + [keys[|keys| - 1]];
    }
  }

  lemma ValuesRoundTrip(values: Values, marked: seq<string>, order: Order)
    ensures Restore(Redact(values, marked), values) == values
    ensures RestoreMarks(Redact(values, marked), marked, values, marked, order) == marked
  {
    var shown := Redact(values, marked);
    AddAllMembers(marked, order(shown.Keys),
                  k => k in shown && shown[k] == REDACTED_VALUE && k in values && k in marked);
  }

  lemma PatchRoundTrip(values: Option<Values>, marked: Option<seq<string>>, order: Order)
    ensures RestoreSome(RedactSome(values, marked), values) == values
    ensures RestorePatchMarks(RedactSome(values, marked), marked, values, marked, order) == marked
  {
    if values.Some? && marked.Some? {
      var shown := Redact(values.value, marked.value);
      ValuesRoundTrip(values.value, marked.value, order);
      AddAllMembers(marked.value, order(values.value.Keys),
                    k => k in values.value && values.value[k] == Get(values.value, k) && k in marked.value);
      var restored := Restore(shown, values.value);
      var wanted := (k: string) => k in restored && restored[k] == Get(values.value, k) && k in marked.value;
      AddAllMembers(marked.value, order(restored.Keys), wanted);
    } else if values.Some? {
      ValuesRoundTrip(values.value, [], order);
    }
  }

  lemma ServersRoundTrip(servers: map<string, Server>, order: Order)
    ensures RestoreServers(PublicServers(servers), servers, order) == servers
  {
    forall n | n in servers
      ensures RestoreServer(PublicServer(servers[n]), servers[n], order) == servers[n]
    {
      ValuesRoundTrip(servers[n].env, servers[n].secretEnv, order);
      ValuesRoundTrip(servers[n].headers, servers[n].secretHeaders, order);
    }
  }

  lemma SourcesRoundTrip(sources: map<string, Source>, order: Order)
    ensures RestoreSources(PublicSources(sources), sources, order) == sources
  {
    forall n | n in sources
      ensures RestoreSource(PublicSource(sources[n]), sources[n], order) == sources[n]
    {
      ValuesRoundTrip(sources[n].env, sources[n].secretEnv, order);
    }
  }

  lemma ProjectRoundTrip(p: Project, order: Order)
    ensures RestoreProject(PublicProject(p), p, order) == p
  {
    if p.settings.mcp.Some? {
      var servers := p.settings.mcp.value.servers;
      forall n | n in servers
        ensures RestoreServerPatch(PublicServerPatch(servers[n]), servers[n], order) == servers[n]
      {
        PatchRoundTrip(servers[n].env, servers[n].secretEnv, order);
        PatchRoundTrip(servers[n].headers, servers[n].secretHeaders, order);
      }
      assert RestoreMcp(Some(PublicMcp(p.settings.mcp.value)), p.settings.mcp, order).value.servers == servers;
    }
    if p.settings.extensions.Some? {
      var sources := p.settings.extensions.value.sources;
      forall n | n in sources
        ensures RestoreSourcePatch(PublicSourcePatch(sources[n]), sources[n], order) == sources[n]
      {
        PatchRoundTrip(sources[n].env, sources[n].secretEnv, order);
      }
      assert RestoreExtensions(Some(PublicExtensions(p.settings.extensions.value)), p.settings.extensions, order)
             .value.sources == sources;
    }
  }

  /** Sending back the public view unedited restores the document, whatever the map order. */
  lemma RoundTrip(c: Config, order: Order)
    ensures Restored(Public(c), c, order) == c
  {
    ServersRoundTrip(c.global.servers, order);
    SourcesRoundTrip(c.global.sources, order);
    forall id | id in c.projects
      ensures RestoreProject(PublicProject(c.projects[id]), c.projects[id], order) == c.projects[id]
    {
      ProjectRoundTrip(c.projects[id], order);
    }
    assert Restored(Public(c), c, order).projects == c.projects;
  }

  /** Every place of the document that holds environment or header values. */
  datatype Slot =
    | Env(server: string)
    | Headers(server: string)
    | SourceEnv(source: string)
    | ProjectEnv(project: string, server: string)
    | ProjectHeaders(project: string, server: string)
    | ProjectSourceEnv(project: string, source: string)

  function ServerPatchAt(c: Config, project: string, server: string): Option<ServerPatch> {
    if project in c.projects && c.projects[project].settings.mcp.Some? &&
       server in c.projects[project].settings.mcp.value.servers
    then Some(c.projects[project].settings.mcp.value.servers[server]) else None
  }

  function SourcePatchAt(c: Config, project: string, source: string): Option<SourcePatch> {
    if project in c.projects && c.projects[project].settings.extensions.Some? &&
       source in c.projects[project].settings.extensions.value.sources
    then Some(c.projects[project].settings.extensions.value.sources[source]) else None
  }

  function ValuesAt(c: Config, slot: Slot): Option<Values> {
    match slot
    case Env(n) => if n in c.global.servers then Some(c.global.servers[n].env) else None
    case Headers(n) => if n in c.global.servers then Some(c.global.servers[n].headers) else None
    case SourceEnv(n) => if n in c.global.sources then Some(c.global.sources[n].env) else None
    case ProjectEnv(p, n) => var patch := ServerPatchAt(c, p, n); if patch.Some? then patch.value.env else None
    case ProjectHeaders(p, n) => var patch := ServerPatchAt(c, p, n); if patch.Some? then patch.value.headers else None
    case ProjectSourceEnv(p, n) => var patch := SourcePatchAt(c, p, n); if patch.Some? then patch.value.env else None
  }

  function MarksAt(c: Config, slot: Slot): seq<string> {
    match slot
    case Env(n) => if n in c.global.servers then c.global.servers[n].secretEnv else []
    case Headers(n) => if n in c.global.servers then c.global.servers[n].secretHeaders else []
    case SourceEnv(n) => if n in c.global.sources then c.global.sources[n].secretEnv else []
    case ProjectEnv(p, n) =>
      var patch := ServerPatchAt(c, p, n); if patch.Some? then Listed(patch.value.secretEnv) else []
    case ProjectHeaders(p, n) =>
      var patch := ServerPatchAt(c, p, n); if patch.Some? then Listed(patch.value.secretHeaders) else []
    case ProjectSourceEnv(p, n) =>
      var patch := SourcePatchAt(c, p, n); if patch.Some? then Listed(patch.value.secretEnv) else []
  }

  lemma PublicAt(c: Config, slot: Slot)
    ensures ValuesAt(Public(c), slot) ==
            if ValuesAt(c, slot).Some? then Some(Redact(ValuesAt(c, slot).value, MarksAt(c, slot))) else None
    ensures MarksAt(Public(c), slot) == MarksAt(c, slot)
  {
  }

  /** An edited view: a kept placeholder whose key existed gets the old value, everything else is as edited. */
  lemma RestoredAt(c: Config, prev: Config, order: Order, slot: Slot)
    ensures ValuesAt(Restored(c, prev, order), slot) == RestoreSome(ValuesAt(c, slot), ValuesAt(prev, slot))
  {
  }

  lemma MarkKept(candidate: Values, marked: seq<string>, prev: Values, prevMarked: seq<string>, order: Order,
                 key: string)
    requires Enumerates(order)
    requires key in candidate && candidate[key] == REDACTED_VALUE && key in prev && key in prevMarked
    ensures key in RestoreMarks(candidate, marked, prev, prevMarked, order)
  {
    AddAllMembers(marked, order(candidate.Keys),
                  k => k in candidate && candidate[k] == REDACTED_VALUE && k in prev && k in prevMarked);
  }

  lemma PatchMarkKept(candidate: Option<Values>, marked: Option<seq<string>>, prev: Option<Values>,
                      prevMarked: Option<seq<string>>, order: Order, key: string)
    requires Enumerates(order) && candidate.Some? && prev.Some?
    requires key in candidate.value && candidate.value[key] == REDACTED_VALUE
    requires key in prev.value && key in Listed(prevMarked)
    ensures key in Listed(RestorePatchMarks(candidate, marked, prev, prevMarked, order))
  {
    var values := Restore(candidate.value, prev.value);
    var wanted := (k: string) => k in values && values[k] == Get(prev.value, k) && k in prevMarked.value;
    AddAllMembers(Listed(marked), order(values.Keys), wanted);
  }

  /** A key that was marked secret is marked again wherever its placeholder was sent back. */
  lemma MarksComeBack(c: Config, prev: Config, order: Order, slot: Slot, key: string)
    requires Enumerates(order)
    requires ValuesAt(c, slot).Some? && key in ValuesAt(c, slot).value && ValuesAt(c, slot).value[key] == REDACTED_VALUE
    requires ValuesAt(prev, slot).Some? && key in ValuesAt(prev, slot).value && key in MarksAt(prev, slot)
    ensures key in MarksAt(Restored(c, prev, order), slot)
  {
    hide RestoreMarks, RestorePatchMarks, Restore, LooksSecret;
    var values, prevValues := ValuesAt(c, slot), ValuesAt(prev, slot);
    match slot
    case Env(n) =>
      MarkKept(values.value, c.global.servers[n].secretEnv, prevValues.value, prev.global.servers[n].secretEnv,
               order, key);
    case Headers(n) =>
      MarkKept(values.value, c.global.servers[n].secretHeaders, prevValues.value, prev.global.servers[n].secretHeaders,
               order, key);
    case SourceEnv(n) =>
      MarkKept(values.value, c.global.sources[n].secretEnv, prevValues.value, prev.global.sources[n].secretEnv,
               order, key);
    case ProjectEnv(p, n) =>
      PatchMarkKept(values, ServerPatchAt(c, p, n).value.secretEnv, prevValues,
                    ServerPatchAt(prev, p, n).value.secretEnv, order, key);
    case ProjectHeaders(p, n) =>
      PatchMarkKept(values, ServerPatchAt(c, p, n).value.secretHeaders, prevValues,
                    ServerPatchAt(prev, p, n).value.secretHeaders, order, key);
    case ProjectSourceEnv(p, n) =>
      PatchMarkKept(values, SourcePatchAt(c, p, n).value.secretEnv, prevValues,
                    SourcePatchAt(prev, p, n).value.secretEnv, order, key);
  }

  /** What was shown as the placeholder and sent back as the placeholder is shown as the placeholder again. */
  lemma KeepsHiding(c: Config, prev: Config, order: Order, slot: Slot, key: string)
    requires Enumerates(order)
    requires ValuesAt(Public(prev), slot).Some? && key in ValuesAt(Public(prev), slot).value
    requires ValuesAt(Public(prev), slot).value[key] == REDACTED_VALUE
    requires ValuesAt(c, slot).Some? && key in ValuesAt(c, slot).value && ValuesAt(c, slot).value[key] == REDACTED_VALUE
    ensures
      var shown := ValuesAt(Public(Restored(c, prev, order)), slot);
      shown.Some? && key in shown.value && shown.value[key] == REDACTED_VALUE
  {
    PublicAt(prev, slot);
    RestoredAt(c, prev, order, slot);
    PublicAt(Restored(c, prev, order), slot);
    if key in MarksAt(prev, slot) {
      MarksComeBack(c, prev, order, slot, key);
    }
  }

  predicate Alike(a: Values, b: Values, marked: seq<string>) {
    a.Keys == b.Keys && forall k :: k in a && !IsSecret(k, marked) ==> a[k] == b[k]
  }

  predicate AlikeSome(a: Option<Values>, b: Option<Values>, marked: Option<seq<string>>) {
    (a.Some? <==> b.Some?) && (a.Some? ==> Alike(a.value, b.value, Listed(marked)))
  }

  predicate AlikeServers(a: Server, b: Server) {
    && a == b.(env := a.env, headers := a.headers)
    && Alike(a.env, b.env, a.secretEnv) && Alike(a.headers, b.headers, a.secretHeaders)
  }

  predicate AlikeSources(a: Source, b: Source) {
    a == b.(env := a.env) && Alike(a.env, b.env, a.secretEnv)
  }

  predicate AlikeServerPatches(a: ServerPatch, b: ServerPatch) {
    && a == b.(env := a.env, headers := a.headers)
    && AlikeSome(a.env, b.env, a.secretEnv) && AlikeSome(a.headers, b.headers, a.secretHeaders)
  }

  predicate AlikeSourcePatches(a: SourcePatch, b: SourcePatch) {
    a == b.(env := a.env) && AlikeSome(a.env, b.env, a.secretEnv)
  }

  predicate AlikeSettings(a: Settings, b: Settings) {
    && a == b.(servers := a.servers, sources := a.sources)
    && a.servers.Keys == b.servers.Keys && a.sources.Keys == b.sources.Keys
    && (forall n :: n in a.servers ==> AlikeServers(a.servers[n], b.servers[n]))
    && (forall n :: n in a.sources ==> AlikeSources(a.sources[n], b.sources[n]))
  }

  predicate AlikeMcp(a: Option<McpPatch>, b: Option<McpPatch>) {
    && (a.Some? <==> b.Some?)
    && (a.Some? ==>
          && a.value.removed == b.value.removed && a.value.servers.Keys == b.value.servers.Keys
          && forall n :: n in a.value.servers ==> AlikeServerPatches(a.value.servers[n], b.value.servers[n]))
  }

  predicate AlikeExtensions(a: Option<ExtensionPatch>, b: Option<ExtensionPatch>) {
    && (a.Some? <==> b.Some?)
    && (a.Some? ==>
          && a.value.removed == b.value.removed && a.value.allowUnsigned == b.value.allowUnsigned
          && a.value.sources.Keys == b.value.sources.Keys
          && forall n :: n in a.value.sources ==> AlikeSourcePatches(a.value.sources[n], b.value.sources[n]))
  }

  predicate AlikeProjects(a: Project, b: Project) {
    && a == b.(settings := b.settings.(mcp := a.settings.mcp, extensions := a.settings.extensions))
    && AlikeMcp(a.settings.mcp, b.settings.mcp) && AlikeExtensions(a.settings.extensions, b.settings.extensions)
  }

  /** Two documents that differ at most in values at secret keys. */
  predicate AlikeConfigs(a: Config, b: Config) {
    && a.version == b.version && a.revision == b.revision && AlikeSettings(a.global, b.global)
    && a.projects.Keys == b.projects.Keys
    && forall id :: id in a.projects ==> AlikeProjects(a.projects[id], b.projects[id])
  }

  lemma RedactHides(a: Values, b: Values, marked: seq<string>)
    ensures Redact(a, marked) == Redact(b, marked) <==> Alike(a, b, marked)
  {
    if Redact(a, marked) == Redact(b, marked) {
      assert a.Keys == Redact(a, marked).Keys == Redact(b, marked).Keys == b.Keys;
      forall k | k in a && !IsSecret(k, marked)
        ensures a[k] == b[k]
      {
        assert Redact(a, marked)[k] == Redact(b, marked)[k];
      }
    }
  }

  lemma ServersHide(a: Server, b: Server)
    ensures PublicServer(a) == PublicServer(b) <==> AlikeServers(a, b)
  {
    RedactHides(a.env, b.env, a.secretEnv);
    RedactHides(a.headers, b.headers, a.secretHeaders);
  }

  lemma SourcesHide(a: Source, b: Source)
    ensures PublicSource(a) == PublicSource(b) <==> AlikeSources(a, b)
  {
    RedactHides(a.env, b.env, a.secretEnv);
  }

  lemma ServerPatchesHide(a: ServerPatch, b: ServerPatch)
    ensures PublicServerPatch(a) == PublicServerPatch(b) <==> AlikeServerPatches(a, b)
  {
    if a.env.Some? && b.env.Some? {
      RedactHides(a.env.value, b.env.value, Listed(a.secretEnv));
    }
    if a.headers.Some? && b.headers.Some? {
      RedactHides(a.headers.value, b.headers.value, Listed(a.secretHeaders));
    }
  }

  lemma SourcePatchesHide(a: SourcePatch, b: SourcePatch)
    ensures PublicSourcePatch(a) == PublicSourcePatch(b) <==> AlikeSourcePatches(a, b)
  {
    if a.env.Some? && b.env.Some? {
      RedactHides(a.env.value, b.env.value, Listed(a.secretEnv));
    }
  }

  lemma ServerMapsHide(a: map<string, Server>, b: map<string, Server>)
    ensures PublicServers(a) == PublicServers(b) <==>
            a.Keys == b.Keys && forall n :: n in a ==> AlikeServers(a[n], b[n])
  {
    var pa, pb := PublicServers(a), PublicServers(b);
    assert pa.Keys == a.Keys && pb.Keys == b.Keys;
    forall n | n in a && n in b
      ensures pa[n] == pb[n] <==> AlikeServers(a[n], b[n])
    {
      ServersHide(a[n], b[n]);
    }
  }

  lemma SourceMapsHide(a: map<string, Source>, b: map<string, Source>)
    ensures PublicSources(a) == PublicSources(b) <==>
            a.Keys == b.Keys && forall n :: n in a ==> AlikeSources(a[n], b[n])
  {
    var pa, pb := PublicSources(a), PublicSources(b);
    assert pa.Keys == a.Keys && pb.Keys == b.Keys;
    forall n | n in a && n in b
      ensures pa[n] == pb[n] <==> AlikeSources(a[n], b[n])
    {
      SourcesHide(a[n], b[n]);
    }
  }

  lemma McpHides(a: McpPatch, b: McpPatch)
    ensures PublicMcp(a) == PublicMcp(b) <==> AlikeMcp(Some(a), Some(b))
  {
    var pa, pb := PublicMcp(a).servers, PublicMcp(b).servers;
    assert pa.Keys == a.servers.Keys && pb.Keys == b.servers.Keys;
    forall n | n in a.servers && n in b.servers
      ensures pa[n] == pb[n] <==> AlikeServerPatches(a.servers[n], b.servers[n])
    {
      ServerPatchesHide(a.servers[n], b.servers[n]);
    }
    assert pa == pb <==> pa.Keys == pb.Keys && forall n :: n in a.servers ==> pa[n] == pb[n];
  }

  lemma ExtensionsHide(a: ExtensionPatch, b: ExtensionPatch)
    ensures PublicExtensions(a) == PublicExtensions(b) <==> AlikeExtensions(Some(a), Some(b))
  {
    var pa, pb := PublicExtensions(a).sources, PublicExtensions(b).sources;
    assert pa.Keys == a.sources.Keys && pb.Keys == b.sources.Keys;
    forall n | n in a.sources && n in b.sources
      ensures pa[n] == pb[n] <==> AlikeSourcePatches(a.sources[n], b.sources[n])
    {
      SourcePatchesHide(a.sources[n], b.sources[n]);
    }
    assert pa == pb <==> pa.Keys == pb.Keys && forall n :: n in a.sources ==> pa[n] == pb[n];
  }

  lemma SettingsHide(a: Settings, b: Settings)
    ensures PublicSettings(a) == PublicSettings(b) <==> AlikeSettings(a, b)
  {
    ServerMapsHide(a.servers, b.servers);
    SourceMapsHide(a.sources, b.sources);
  }

  lemma ProjectsHide(a: Project, b: Project)
    ensures PublicProject(a) == PublicProject(b) <==> AlikeProjects(a, b)
  {
    if a.settings.mcp.Some? && b.settings.mcp.Some? {
      McpHides(a.settings.mcp.value, b.settings.mcp.value);
    }
    if a.settings.extensions.Some? && b.settings.extensions.Some? {
      ExtensionsHide(a.settings.extensions.value, b.settings.extensions.value);
    }
  }

  /** Two documents have the same public view exactly when they differ at most in values at secret keys. */
  lemma PublicHidesExactlySecrets(a: Config, b: Config)
    ensures Public(a) == Public(b) <==> AlikeConfigs(a, b)
  {
    SettingsHide(a.global, b.global);
    var pa, pb := Public(a).projects, Public(b).projects;
    assert pa.Keys == a.projects.Keys && pb.Keys == b.projects.Keys;
    forall id | id in a.projects && id in b.projects
      ensures pa[id] == pb[id] <==> AlikeProjects(a.projects[id], b.projects[id])
    {
      ProjectsHide(a.projects[id], b.projects[id]);
    }
    assert pa == pb <==> pa.Keys == pb.Keys && forall id :: id in a.projects ==> pa[id] == pb[id];
  }

  lemma RedactAgain(values: Values, marked: seq<string>)
    ensures Redact(Redact(values, marked), marked) == Redact(values, marked)
  {
  }

  lemma ServerShownAgain(s: Server)
    ensures PublicServer(PublicServer(s)) == PublicServer(s)
  {
    hide Redact;
    RedactAgain(s.env, s.secretEnv);
    RedactAgain(s.headers, s.secretHeaders);
  }

  lemma SourceShownAgain(s: Source)
    ensures PublicSource(PublicSource(s)) == PublicSource(s)
  {
    hide Redact;
    RedactAgain(s.env, s.secretEnv);
  }

  lemma SettingsShownAgain(s: Settings)
    ensures PublicSettings(PublicSettings(s)) == PublicSettings(s)
  {
    hide PublicServer, PublicSource;
    forall n | n in s.servers
      ensures PublicServer(PublicServer(s.servers[n])) == PublicServer(s.servers[n])
    {
      ServerShownAgain(s.servers[n]);
    }
    forall n | n in s.sources
      ensures PublicSource(PublicSource(s.sources[n])) == PublicSource(s.sources[n])
    {
      SourceShownAgain(s.sources[n]);
    }
    assert PublicServers(PublicServers(s.servers)) == PublicServers(s.servers);
    assert PublicSources(PublicSources(s.sources)) == PublicSources(s.sources);
  }

  lemma SomeShownAgain(values: Option<Values>, marked: Option<seq<string>>)
    ensures RedactSome(RedactSome(values, marked), marked) == RedactSome(values, marked)
  {
    hide Redact;
    if values.Some? {
      RedactAgain(values.value, Listed(marked));
    }
  }

  lemma McpShownAgain(p: McpPatch)
    ensures PublicMcp(PublicMcp(p)) == PublicMcp(p)
  {
    hide RedactSome;
    forall n | n in p.servers
      ensures PublicServerPatch(PublicServerPatch(p.servers[n])) == PublicServerPatch(p.servers[n])
    {
      SomeShownAgain(p.servers[n].env, p.servers[n].secretEnv);
      SomeShownAgain(p.servers[n].headers, p.servers[n].secretHeaders);
    }
    assert PublicMcp(PublicMcp(p)).servers == PublicMcp(p).servers;
  }

  lemma ExtensionsShownAgain(p: ExtensionPatch)
    ensures PublicExtensions(PublicExtensions(p)) == PublicExtensions(p)
  {
    hide RedactSome;
    forall n | n in p.sources
      ensures PublicSourcePatch(PublicSourcePatch(p.sources[n])) == PublicSourcePatch(p.sources[n])
    {
      SomeShownAgain(p.sources[n].env, p.sources[n].secretEnv);
    }
    assert PublicExtensions(PublicExtensions(p)).sources == PublicExtensions(p).sources;
  }

  lemma ProjectShownAgain(p: Project)
    ensures PublicProject(PublicProject(p)) == PublicProject(p)
  {
    hide PublicMcp, PublicExtensions;
    if p.settings.mcp.Some? {
      McpShownAgain(p.settings.mcp.value);
    }
    if p.settings.extensions.Some? {
      ExtensionsShownAgain(p.settings.extensions.value);
    }
  }

  /** The public view hides nothing further when it is taken again. */
  lemma PublicIsIdempotent(c: Config)
    ensures Public(Public(c)) == Public(c)
  {
    hide PublicSettings, PublicProject;
    SettingsShownAgain(c.global);
    forall id | id in c.projects
      ensures PublicProject(PublicProject(c.projects[id])) == PublicProject(c.projects[id])
    {
      ProjectShownAgain(c.projects[id]);
    }
    assert Public(Public(c)).projects == Public(c).projects;
  }
}
