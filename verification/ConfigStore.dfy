/** The revisioned configuration file: effective settings, validation, updates and sandbox overrides. */
module ConfigStore {
  import opened Text
  import opened Redaction
  import opened Wrappers

  const CURRENT_VERSION := 1
  const REVISION_LIMIT := 0x1_0000_0000_0000_0000

  /** The revision is an unsigned 64-bit counter. */
  function NextRevision(revision: nat): nat {
    (revision + 1) % REVISION_LIMIT
  }

  const SANDBOX_MODES := {"strict", "workspace", "off"}
  const APPROVAL_MODES := {"never", "on-request", "always"}

  function ServerOrEmpty(servers: map<string, Server>, name: string): Server {
    if name in servers then servers[name] else Server(map[], map[], [], map[], [])
  }

  function SourceOrEmpty(sources: map<string, Source>, name: string): Source {
    if name in sources then sources[name] else Source(map[], map[], [])
  }

  function OrElse<T>(override: Option<T>, inherited: T): T {
    if override.Some? then override.value else inherited
  }

  function ApplyServer(s: Server, p: ServerPatch): Server {
    Server(s.fields + p.fields, OrElse(p.env, s.env), OrElse(p.secretEnv, s.secretEnv),
           OrElse(p.headers, s.headers), OrElse(p.secretHeaders, s.secretHeaders))
  }

  function ApplySource(s: Source, p: SourcePatch): Source {
    Source(s.fields + p.fields, OrElse(p.env, s.env), OrElse(p.secretEnv, s.secretEnv))
  }

  function ApplyTools(t: Tools, patch: Option<ToolPatch>): Tools {
    if patch.None? then t
    else Tools(OrElse(patch.value.enabled, t.enabled), OrElse(patch.value.sandbox, t.sandbox),
               OrElse(patch.value.approval, t.approval))
  }

  function ApplyMcp(servers: map<string, Server>, patch: Option<McpPatch>): map<string, Server> {
    if patch.None? then servers
    else
      var p := patch.value;
      map n | n in servers.Keys + p.servers.Keys && n !in p.removed ::
        if n in p.servers then ApplyServer(ServerOrEmpty(servers, n), p.servers[n]) else servers[n]
  }

  function ApplyExtensions(sources: map<string, Source>, patch: Option<ExtensionPatch>): map<string, Source> {
    if patch.None? then sources
    else
      var p := patch.value;
      map n | n in sources.Keys + p.sources.Keys && n !in p.removed ::
        if n in p.sources then ApplySource(SourceOrEmpty(sources, n), p.sources[n]) else sources[n]
  }

  function ApplyOther(sections: map<string, Values>, patch: map<string, Values>): map<string, Values> {
    map n | n in sections :: if n in patch then sections[n] + patch[n] else sections[n]
  }

  function ApplyPatch(s: Settings, p: SettingsPatch): Settings {
    Settings(ApplyTools(s.tools, p.tools), ApplyMcp(s.servers, p.mcp), ApplyExtensions(s.sources, p.extensions),
             if p.extensions.Some? then OrElse(p.extensions.value.allowUnsigned, s.allowUnsigned) else s.allowUnsigned,
             ApplyOther(s.other, p.other))
  }

  /** A project's settings: the global ones with its overrides applied. */
  function Effective(c: Config, id: string): Settings {
    if id in c.projects then ApplyPatch(c.global, c.projects[id].settings) else c.global
  }

  /** Checks on single servers, sources and sections that look at nothing else. */
  datatype Rules = Rules(server: Server -> bool, source: Source -> bool, section: (string, Values) -> bool)

  predicate IsNameChar(c: char) {
    'a' <= c <= 'z' || 'A' <= c <= 'Z' || '0' <= c <= '9' || c in {'_', '.', '-'}
  }

  predicate ValidName(s: string) {
    && 1 <= |s| <= 128 && IsNameChar(s[0]) && s[0] !in {'_', '.', '-'}
    && forall i :: 0 <= i < |s| ==> IsNameChar(s[i])
  }

  predicate UniqueNonEmpty(list: seq<string>) {
    && (forall i :: 0 <= i < |list| ==> !Blank(list[i]))
    && (forall i, j :: 0 <= i < j < |list| ==> list[i] != list[j])
  }

  predicate SecretsConfigured(values: Values, marked: seq<string>) {
    UniqueNonEmpty(marked) && forall k :: k in marked ==> k in values
  }

  predicate ValidTools(t: Tools) {
    UniqueNonEmpty(t.enabled) && t.sandbox in SANDBOX_MODES && t.approval in APPROVAL_MODES
  }

  predicate ValidServers(servers: map<string, Server>, rules: Rules) {
    forall n :: n in servers ==>
      && ValidName(n) && SecretsConfigured(servers[n].env, servers[n].secretEnv)
      && SecretsConfigured(servers[n].headers, servers[n].secretHeaders) && rules.server(servers[n])
  }

  predicate ValidSources(sources: map<string, Source>, rules: Rules) {
    forall n :: n in sources ==>
      ValidName(n) && SecretsConfigured(sources[n].env, sources[n].secretEnv) && rules.source(sources[n])
  }

  predicate ValidSettings(s: Settings, rules: Rules) {
    && ValidTools(s.tools) && ValidServers(s.servers, rules) && ValidSources(s.sources, rules)
    && forall n :: n in s.other ==> rules.section(n, s.other[n])
  }

  predicate ValidRemoval(removed: seq<string>, patched: set<string>) {
    && UniqueNonEmpty(removed) && (forall n :: n in removed ==> ValidName(n))
    && (forall n :: n in patched ==> n !in removed)
  }

  predicate ValidPatch(p: SettingsPatch) {
    && (p.mcp.Some? ==> ValidRemoval(p.mcp.value.removed, p.mcp.value.servers.Keys))
    && (p.extensions.Some? ==> ValidRemoval(p.extensions.value.removed, p.extensions.value.sources.Keys))
  }

  predicate IsAbsolute(folder: string) {
    folder != "" && folder[0] == '/'
  }

  predicate ValidProject(c: Config, id: string, rules: Rules)
    requires id in c.projects
  {
    && ValidName(id) && !Blank(c.projects[id].folder) && IsAbsolute(c.projects[id].folder)
    && ValidPatch(c.projects[id].settings) && ValidSettings(Effective(c, id), rules)
  }

  predicate Valid(c: Config, rules: Rules) {
    && c.version == CURRENT_VERSION && c.revision != 0 && ValidSettings(c.global, rules)
    && forall id :: id in c.projects ==> ValidProject(c, id, rules)
  }

  predicate EmptyPatch(p: SettingsPatch) {
    p.tools.None? && p.mcp.None? && p.extensions.None? && p.other == map[]
  }

  const NO_PATCH := SettingsPatch(None, None, None, map[])

  function SandboxOf(c: Config, id: string): Option<string> {
    if id in c.projects && c.projects[id].settings.tools.Some?
    then c.projects[id].settings.tools.value.sandbox else None
  }

  function WithSandbox(c: Config, id: string, folder: string, mode: string): Config {
    var project := if id in c.projects then c.projects[id] else Project(folder, NO_PATCH);
    var tools := if project.settings.tools.Some? then project.settings.tools.value else ToolPatch(None, None, None);
    var patched := project.settings.(tools := Some(tools.(sandbox := Some(mode))));
    c.(projects := c.projects[id := project.(settings := patched)])
  }

  function WithoutSandbox(c: Config, id: string): Config
    requires SandboxOf(c, id).Some?
  {
    var project := c.projects[id];
    var tools := project.settings.tools.value.(sandbox := None);
    var left := if tools.enabled.None? && tools.approval.None? then None else Some(tools);
    var patched := project.settings.(tools := left);
    if EmptyPatch(patched) then c.(projects := c.projects - {id})
    else c.(projects := c.projects[id := project.(settings := patched)])
  }

  /** The document a sandbox request asks for; None when it asks for what is already there. */
  function SandboxChange(c: Config, id: string, folder: string, mode: Option<string>): Option<Config> {
    if mode == SandboxOf(c, id) then None
    else if mode.Some? then Some(WithSandbox(c, id, folder, mode.value))
    else Some(WithoutSandbox(c, id))
  }

  predicate SandboxRequestOk(id: string, folder: string, mode: Option<string>) {
    ValidName(id) && IsAbsolute(folder) && (mode.Some? ==> mode.value in SANDBOX_MODES)
  }

  datatype File = Missing | Corrupt | Document(config: Config)

  datatype Failure = Unavailable | Invalid | Conflict(expected: nat, actual: nat) | BadRequest

  datatype Outcome = Done(shown: Config) | Refused(failure: Failure)

  datatype Loaded = Loaded(config: Config) | NotLoaded(failure: Failure)

  /** One call of the store; `created` and `stored` say whether its atomic writes succeed. */
  datatype Call =
    | Load(created: bool)
    | Update(expected: nat, replacement: Config, order: Order, created: bool, stored: bool)
    | SetSandbox(id: string, folder: string, mode: Option<string>, created: bool, stored: bool)

  function LoadedFrom(file: File, defaults: Config, rules: Rules, created: bool): Loaded {
    match file
    case Missing => if created then Loaded(defaults) else NotLoaded(Unavailable)
    case Corrupt => NotLoaded(Unavailable)
    case Document(c) => if Valid(c, rules) then Loaded(c) else NotLoaded(Invalid)
  }

  /** What an update asks to store, computed from the document it finds. */
  function Candidate(raw: Config, replacement: Config, order: Order): Config {
    Restored(replacement.(version := CURRENT_VERSION, revision := NextRevision(raw.revision)), raw, order)
  }

  /** What a sandbox request asks to store; None when it is malformed or changes nothing. */
  function SandboxCandidate(raw: Config, id: string, folder: string, mode: Option<string>): Option<Config> {
    var change := SandboxChange(raw, id, folder, mode);
    if !SandboxRequestOk(id, folder, mode) || change.None? then None
    else Some(change.value.(revision := NextRevision(raw.revision)))
  }

  /** The document a call commits when it finds `raw`; None when it stores nothing. */
  function Commit(raw: Config, call: Call, rules: Rules): Option<Config> {
    match call
    case Load(_) => None
    case Update(expected, replacement, order, _, stored) =>
      var candidate := Candidate(raw, replacement, order);
      if raw.revision == expected && Valid(candidate, rules) && stored then Some(candidate) else None
    case SetSandbox(id, folder, mode, _, stored) =>
      var candidate := SandboxCandidate(raw, id, folder, mode);
      if candidate.Some? && Valid(candidate.value, rules) && stored then candidate else None
  }

  predicate Reaches(call: Call) {
    call.SetSandbox? ==> SandboxRequestOk(call.id, call.folder, call.mode)
  }

  function AfterCall(file: File, call: Call, defaults: Config, rules: Rules): File {
    var loaded := LoadedFrom(file, defaults, rules, call.created);
    if !Reaches(call) || loaded.NotLoaded? then file
    else
      var commit := Commit(loaded.config, call, rules);
      Document(if commit.Some? then commit.value else loaded.config)
  }

  function WriteFailure(candidate: Config, rules: Rules): Failure {
    if Valid(candidate, rules) then Unavailable else Invalid
  }

  /** The edit of one project entry; None when the document already says so. */
  method EditSandbox(raw: Config, id: string, folder: string, mode: Option<string>) returns (change: Option<Config>)
    ensures change == SandboxChange(raw, id, folder, mode)
  {
    var known := id in raw.projects;
    if mode.None? {
      if !known || raw.projects[id].settings.tools.None? || raw.projects[id].settings.tools.value.sandbox.None? {
        return None;
      }
      var project := raw.projects[id];
      var tools := project.settings.tools.value.(sandbox := None);
      if tools.enabled.None? && tools.approval.None? {
        project := project.(settings := project.settings.(tools := None));
      } else {
        project := project.(settings := project.settings.(tools := Some(tools)));
      }
      if EmptyPatch(project.settings) {
        return Some(raw.(projects := raw.projects - {id}));
      }
      return Some(raw.(projects := raw.projects[id := project]));
    }
    if SandboxOf(raw, id) == mode {
      return None;
    }
    var project := if known then raw.projects[id] else Project(folder, NO_PATCH);
    var tools := ToolPatch(None, None, None);
    if project.settings.tools.Some? {
      tools := project.settings.tools.value;
    }
    tools := tools.(sandbox := mode);
    project := project.(settings := project.settings.(tools := Some(tools)));
    return Some(raw.(projects := raw.projects[id := project]));
  }

  /** Whether a call gets a document to work on: a stored one that validates, or the defaults, newly stored. */
  predicate Opens(file: File, rules: Rules, created: bool) {
    (file.Document? && Valid(file.config, rules)) || (file.Missing? && created)
  }

  function Found(file: File, defaults: Config): Config {
    if file.Document? then file.config else defaults
  }

  /** What is there when a call stores nothing. */
  function Kept(file: File, defaults: Config, created: bool): File {
    if file.Missing? && created then Document(defaults) else file
  }

  /** The sandbox mode that a project's entry sets, if it does. */
  function OwnMode(c: Config, id: string): Option<string> {
    if id !in c.projects || c.projects[id].settings.tools.None? then None
    else c.projects[id].settings.tools.value.sandbox
  }

  /** What a sandbox request asks for: this project's mode in effect, and everything else as it was. */
  ghost predicate AskedFor(found: Config, after: Config, id: string, folder: string, mode: Option<string>) {
    && after.global == found.global && after.version == found.version && OwnMode(after, id) == mode
    && Effective(after, id).tools.sandbox == (if mode.Some? then mode.value else found.global.tools.sandbox)
    && (forall other :: other != id ==> Effective(after, other) == Effective(found, other))
    && Effective(found, id) ==
       Effective(after, id).(tools := Effective(after, id).tools.(sandbox := Effective(found, id).tools.sandbox))
    && (forall other :: other != id ==> (other in after.projects <==> other in found.projects))
    && (forall other :: other != id && other in found.projects ==> after.projects[other] == found.projects[other])
    && (id in after.projects ==>
          after.projects[id].folder == if id in found.projects then found.projects[id].folder else folder)
  }

  lemma ChangeIsAskedFor(c: Config, id: string, folder: string, mode: Option<string>, revision: nat)
    ensures SandboxChange(c, id, folder, mode).None? <==> OwnMode(c, id) == mode
    ensures SandboxChange(c, id, folder, mode).Some? ==>
              AskedFor(c, SandboxChange(c, id, folder, mode).value.(revision := revision), id, folder, mode)
  {
    hide Effective;
    if OwnMode(c, id) != mode {
      var after := SandboxChange(c, id, folder, mode).value.(revision := revision);
      forall other: string
        ensures
          var before := Effective(c, other);
          Effective(after, other) ==
          if other == id then
            before.(tools := before.tools.(sandbox := if mode.Some? then mode.value else c.global.tools.sandbox))
          else before
      {
        if mode.Some? {
          SetChangesOneSandbox(c, id, folder, mode.value, other);
        } else {
          UnsetInheritsSandbox(c, id, other);
        }
        EffectiveIgnoresRevision(SandboxChange(c, id, folder, mode).value, revision, other);
      }
    }
  }

  lemma EffectiveIgnoresRevision(c: Config, revision: nat, id: string)
    ensures Effective(c.(revision := revision), id) == Effective(c, id)
  {
  }

  class Store {
    const defaults: Config
    const rules: Rules
    var file: File

    constructor (defaults: Config, rules: Rules, file: File)
      requires Valid(defaults, rules)
      ensures this.defaults == defaults && this.rules == rules && this.file == file
    {
      this.defaults, this.rules, this.file := defaults, rules, file;
    }

    method LoadOrCreate(stored: bool) returns (loaded: Loaded)
      modifies this
      ensures loaded == LoadedFrom(old(file), defaults, rules, stored)
      ensures loaded.Loaded? <==> Opens(old(file), rules, stored)
      ensures loaded.Loaded? ==> loaded.config == Found(old(file), defaults) && file == Document(loaded.config)
      ensures loaded.NotLoaded? ==>
                file == old(file) && loaded.failure == if old(file).Document? then Invalid else Unavailable
    {
      if file.Missing? {
        if !stored {
          return NotLoaded(Unavailable);
        }
        file := Document(defaults);
        return Loaded(defaults);
      }
      if file.Corrupt? {
        return NotLoaded(Unavailable);
      }
      if !Valid(file.config, rules) {
        return NotLoaded(Invalid);
      }
      return Loaded(file.config);
    }

    /** The end that every change shares: the candidate is validated, written and shown, or nothing changes. */
    method ValidateAndWrite(candidate: Config, stored: bool) returns (r: Outcome)
      modifies this
      ensures r == if Valid(candidate, rules) && stored then Done(Public(candidate))
                   else Refused(WriteFailure(candidate, rules))
      ensures file == if Valid(candidate, rules) && stored then Document(candidate) else old(file)
    {
      if !Valid(candidate, rules) {
        return Refused(Invalid);
      }
      if !stored {
        return Refused(Unavailable);
      }
      file := Document(candidate);
      return Done(Public(candidate));
    }

    method Update(expected: nat, replacement: Config, order: Order, created: bool, stored: bool) returns (r: Outcome)
      modifies this
      ensures file == AfterCall(old(file), Call.Update(expected, replacement, order, created, stored), defaults, rules)
      ensures r.Done? ==> file.Document? && r.shown == Public(file.config)
      ensures
        var opens, found := Opens(old(file), rules, created), Found(old(file), defaults);
        var next := replacement.(version := 1, revision := (found.revision + 1) % 0x1_0000_0000_0000_0000);
        var candidate := Restored(next, found, order);
        && (r.Done? <==> opens && found.revision == expected && Valid(candidate, rules) && stored)
        && file == (if r.Done? then Document(candidate) else Kept(old(file), defaults, created))
        && (!opens ==> r == Refused(if old(file).Document? then Invalid else Unavailable))
        && (opens && found.revision != expected ==> r == Refused(Conflict(expected, found.revision)))
        && (opens && found.revision == expected && !Valid(candidate, rules) ==> r == Refused(Invalid))
        && (opens && found.revision == expected && Valid(candidate, rules) && !stored ==> r == Refused(Unavailable))
    {
      hide Valid, Public, Restored;
      var loaded := LoadOrCreate(created);
      if loaded.NotLoaded? {
        return Refused(loaded.failure);
      }
      var raw := loaded.config;
      if raw.revision != expected {
        return Refused(Conflict(expected, raw.revision));
      }
      var candidate := replacement.(version := CURRENT_VERSION);
      candidate := candidate.(revision := NextRevision(raw.revision));
      candidate := Restored(candidate, raw, order);
      r := ValidateAndWrite(candidate, stored);
    }

    method SetProjectSandbox(id: string, folder: string, mode: Option<string>, created: bool, stored: bool)
      returns (r: Outcome)
      modifies this
      ensures file == AfterCall(old(file), SetSandbox(id, folder, mode, created, stored), defaults, rules)
      ensures r.Done? ==> file.Document? && r.shown == Public(file.config)
      ensures
        var ok := ValidName(id) && folder != "" && folder[0] == '/'
                  && (mode.Some? ==> mode.value in {"strict", "workspace", "off"});
        var opens, found := Opens(old(file), rules, created), Found(old(file), defaults);
        var next := (found.revision + 1) % 0x1_0000_0000_0000_0000;
        && (!ok ==> r == Refused(BadRequest) && file == old(file))
        && (ok && !opens ==> r == Refused(if old(file).Document? then Invalid else Unavailable) && file == old(file))
        && (ok && opens && OwnMode(found, id) == mode ==> r.Done? && file == Document(found))
        && (ok && opens && Valid(found, rules) && OwnMode(found, id) != mode ==>
              && (r.Done? <==> next != 0 && stored)
              && (r.Done? ==> file.config.revision == next && AskedFor(found, file.config, id, folder, mode))
              && (!r.Done? ==> file == Kept(old(file), defaults, created))
              && (!r.Done? ==> r == Refused(if next == 0 then Invalid else Unavailable)))
    {
      hide Public, Valid, AskedFor, SandboxChange;
      if !ValidName(id) || folder == "" || folder[0] != '/' || (mode.Some? && mode.value !in SANDBOX_MODES) {
        return Refused(BadRequest);
      }
      var loaded := LoadOrCreate(created);
      if loaded.NotLoaded? {
        return Refused(loaded.failure);
      }
      var raw := loaded.config;
      ChangeIsAskedFor(raw, id, folder, mode, NextRevision(raw.revision));
      if OwnMode(raw, id) != mode && Valid(raw, rules) {
        SandboxChangeIsValid(raw, id, folder, mode, rules);
      }
      var change := EditSandbox(raw, id, folder, mode);
      if change.None? {
        return Done(Public(raw));
      }
      var changed := change.value;
      changed := changed.(revision := NextRevision(raw.revision));
      r := ValidateAndWrite(changed, stored);
    }
  }

  lemma CommitAdvances(raw: Config, call: Call, rules: Rules)
    requires Commit(raw, call, rules).Some?
    ensures
      var c := Commit(raw, call, rules).value;
      c.revision == raw.revision + 1 || raw.revision >= REVISION_LIMIT
    ensures Valid(Commit(raw, call, rules).value, rules)
  {
  }

  function Files(start: File, calls: seq<Call>, defaults: Config, rules: Rules): File {
    if calls == [] then start
    else AfterCall(Files(start, calls[..|calls| - 1], defaults, rules), calls[|calls| - 1], defaults, rules)
  }

  /** How many calls of a history left another document than the one they found. */
  function Commits(start: File, calls: seq<Call>, defaults: Config, rules: Rules): nat {
    if calls == [] then 0
    else
      var before, after := Files(start, calls[..|calls| - 1], defaults, rules), Files(start, calls, defaults, rules);
      Commits(start, calls[..|calls| - 1], defaults, rules) +
      if after.Document? && after.config != Found(before, defaults) then 1 else 0
  }

  /** The revision at which the history of a file starts. */
  function BaseRevision(start: File, defaults: Config): nat {
    if start.Document? then start.config.revision else defaults.revision
  }

  predicate Sound(file: File, rules: Rules) {
    file.Document? ==> Valid(file.config, rules) && file.config.revision < REVISION_LIMIT
  }

  /** Histories are linear: the stored document always validates, and its revision counts the commits. */
  lemma {:induction false} HistoryIsLinear(start: File, calls: seq<Call>, defaults: Config, rules: Rules)
    requires Sound(start, rules) && Sound(Document(defaults), rules)
    ensures
      var file := Files(start, calls, defaults, rules);
      && Sound(file, rules)
      && (file.Document? ==>
            file.config.revision == BaseRevision(start, defaults) + Commits(start, calls, defaults, rules))
      && (file.Missing? ==> start.Missing? && Commits(start, calls, defaults, rules) == 0)
      && (file.Corrupt? ==> start.Corrupt?)
  {
    if calls != [] {
      var before, call := calls[..|calls| - 1], calls[|calls| - 1];
      HistoryIsLinear(start, before, defaults, rules);
      var file := Files(start, before, defaults, rules);
      var loaded := LoadedFrom(file, defaults, rules, call.created);
      if loaded.Loaded? && Commit(loaded.config, call, rules).Some? {
        CommitAdvances(loaded.config, call, rules);
      }
    }
  }

  /** No lost update: once anything was committed, an update that still names the old revision stores nothing. */
  lemma StaleUpdateRefused(start: Config, calls: seq<Call>, defaults: Config, rules: Rules, update: Call)
    requires Sound(Document(start), rules) && Sound(Document(defaults), rules)
    requires Commits(Document(start), calls, defaults, rules) > 0
    requires update.Update? && update.expected == start.revision
    ensures AfterCall(Files(Document(start), calls, defaults, rules), update, defaults, rules) ==
            Files(Document(start), calls, defaults, rules)
  {
    HistoryIsLinear(Document(start), calls, defaults, rules);
  }

  /** Sending back what was read, unedited, stores the same document at the next revision. */
  lemma UneditedUpdate(raw: Config, order: Order, rules: Rules)
    requires Valid(raw, rules)
    ensures Candidate(raw, Public(raw), order) == raw.(revision := NextRevision(raw.revision))
    ensures Valid(Candidate(raw, Public(raw), order), rules) <==> NextRevision(raw.revision) != 0
  {
    var next := raw.(revision := NextRevision(raw.revision));
    assert Public(raw).(version := CURRENT_VERSION, revision := NextRevision(raw.revision)) == Public(next);
    RoundTrip(next, order);
    RestoredIgnoresRevision(Public(next), raw, next.revision, order);
    SameProjectsStayValid(raw, next, rules);
  }

  lemma RestoredIgnoresRevision(c: Config, prev: Config, revision: nat, order: Order)
    ensures Restored(c, prev, order) == Restored(c, prev.(revision := revision), order)
  {
  }

  lemma SameProjectsStayValid(a: Config, b: Config, rules: Rules)
    requires Valid(a, rules) && a == b.(revision := a.revision)
    ensures Valid(b, rules) <==> b.revision != 0
  {
  }

  /** Setting a mode changes the effective sandbox of that project and nothing else of any project. */
  lemma SetChangesOneSandbox(c: Config, id: string, folder: string, mode: string, other: string)
    ensures
      var before := Effective(c, other);
      Effective(WithSandbox(c, id, folder, mode), other) ==
      if other == id then before.(tools := before.tools.(sandbox := mode)) else before
  {
  }

  /** Unsetting gives the project the global sandbox and changes nothing else of any project. */
  lemma UnsetInheritsSandbox(c: Config, id: string, other: string)
    requires SandboxOf(c, id).Some?
    ensures
      var before := Effective(c, other);
      Effective(WithoutSandbox(c, id), other) ==
      if other == id then before.(tools := before.tools.(sandbox := c.global.tools.sandbox)) else before
  {
  }

  /** Some override other than the sandbox mode. */
  predicate OverridesMore(p: SettingsPatch) {
    || !EmptyPatch(p.(tools := None))
    || (p.tools.Some? && (p.tools.value.enabled.Some? || p.tools.value.approval.Some?))
  }

  /** Setting and then unsetting, where nothing was set before, restores every project's effective settings. */
  lemma SetThenUnset(c: Config, id: string, folder: string, mode: string, other: string)
    requires SandboxOf(c, id).None?
    ensures SandboxOf(WithSandbox(c, id, folder, mode), id) == Some(mode)
    ensures Effective(WithoutSandbox(WithSandbox(c, id, folder, mode), id), other) == Effective(c, other)
    ensures id in WithoutSandbox(WithSandbox(c, id, folder, mode), id).projects <==>
            id in c.projects && OverridesMore(c.projects[id].settings)
  {
  }

  /** The validation of a sandbox change never fails on a valid document, except when the revision wraps around. */
  lemma SandboxChangeIsValid(c: Config, id: string, folder: string, mode: Option<string>, rules: Rules)
    requires Valid(c, rules) && SandboxRequestOk(id, folder, mode) && SandboxChange(c, id, folder, mode).Some?
    ensures Valid(SandboxCandidate(c, id, folder, mode).value, rules) <==> NextRevision(c.revision) != 0
  {
    var after := SandboxCandidate(c, id, folder, mode).value;
    forall other | other in after.projects
      ensures ValidProject(after, other, rules)
    {
      if mode.Some? {
        SetChangesOneSandbox(c, id, folder, mode.value, other);
      } else {
        UnsetInheritsSandbox(c, id, other);
      }
      SandboxKeepsProjectValid(c, after, id, folder, mode, other, rules);
    }
  }

  lemma SandboxKeepsProjectValid(c: Config, after: Config, id: string, folder: string, mode: Option<string>,
                                 other: string, rules: Rules)
    requires Valid(c, rules) && SandboxRequestOk(id, folder, mode) && other in after.projects
    requires SandboxChange(c, id, folder, mode).Some? && SandboxCandidate(c, id, folder, mode) == Some(after)
    requires
      var sandbox := if mode.Some? then mode.value else c.global.tools.sandbox;
      var before := Effective(c, other);
      Effective(after, other) == if other == id then before.(tools := before.tools.(sandbox := sandbox)) else before
    ensures ValidProject(after, other, rules)
  {
    hide Effective, TrimLeft, TrimRight;
    if other in c.projects {
      assert ValidProject(c, other, rules);
    } else {
      UnknownProjectInherits(c, other);
      BlankMeansSpaces(folder);
      assert !IsSpace(folder[0]);
    }
  }

  lemma UnknownProjectInherits(c: Config, id: string)
    requires id !in c.projects
    ensures Effective(c, id) == c.global
  {
  }
}
