/** The two views that readers get of a configuration: the whole document, and one project's effective settings. */
module ConfigViews {
  import opened Text
  import opened Redaction
  import opened ConfigStore
  import opened Wrappers

  /** What a reader of a project's effective settings gets to see. */
  function EffectiveView(c: Config, id: string): Settings {
    PublicSettings(Effective(c, id))
  }

  /** Settings as a document, so that places in it can be named. */
  function AsDocument(s: Settings): Config {
    Config(0, 0, s, map[])
  }

  predicate IsGlobal(at: Slot) {
    at.Env? || at.Headers? || at.SourceEnv?
  }

  /** The place in a project's patch that overrides a global one. */
  function InProject(id: string, at: Slot): Slot
    requires IsGlobal(at)
  {
    match at
    case Env(n) => ProjectEnv(id, n)
    case Headers(n) => ProjectHeaders(id, n)
    case SourceEnv(n) => ProjectSourceEnv(id, n)
  }

  /** The marks that the project's patch sets itself, if it does. */
  function OwnMarks(c: Config, id: string, at: Slot): Option<seq<string>>
    requires IsGlobal(at)
  {
    match at
    case Env(n) => var patch := ServerPatchAt(c, id, n); if patch.Some? then patch.value.secretEnv else None
    case Headers(n) => var patch := ServerPatchAt(c, id, n); if patch.Some? then patch.value.secretHeaders else None
    case SourceEnv(n) => var patch := SourcePatchAt(c, id, n); if patch.Some? then patch.value.secretEnv else None
  }

  predicate Removed(c: Config, id: string, at: Slot)
    requires IsGlobal(at) && id in c.projects
  {
    var s := c.projects[id].settings;
    match at
    case Env(n) => s.mcp.Some? && n in s.mcp.value.removed
    case Headers(n) => s.mcp.Some? && n in s.mcp.value.removed
    case SourceEnv(n) => s.extensions.Some? && n in s.extensions.value.removed
  }

  /** Where the values come from that are in effect: the project's patch if it has any, else the global settings. */
  function Origin(c: Config, id: string, at: Slot): Slot
    requires IsGlobal(at)
  {
    if ValuesAt(c, InProject(id, at)).Some? then InProject(id, at) else at
  }

  lemma ServerInEffect(c: Config, id: string, n: string)
    requires id in c.projects && !Removed(c, id, Env(n)) && n in Effective(c, id).servers
    ensures
      var patch, server := ServerPatchAt(c, id, n), Effective(c, id).servers[n];
      if patch.Some? then server == ApplyServer(ServerOrEmpty(c.global.servers, n), patch.value)
      else n in c.global.servers && server == c.global.servers[n]
  {
  }

  lemma SourceInEffect(c: Config, id: string, n: string)
    requires id in c.projects && !Removed(c, id, SourceEnv(n)) && n in Effective(c, id).sources
    ensures
      var patch, source := SourcePatchAt(c, id, n), Effective(c, id).sources[n];
      if patch.Some? then source == ApplySource(SourceOrEmpty(c.global.sources, n), patch.value)
      else n in c.global.sources && source == c.global.sources[n]
  {
  }

  /** The values and marks in effect: the patch's where it sets them, else the global ones. */
  lemma InEffect(c: Config, id: string, at: Slot)
    requires IsGlobal(at) && id in c.projects && !Removed(c, id, at)
    requires ValuesAt(AsDocument(Effective(c, id)), at).Some?
    ensures
      var values := ValuesAt(AsDocument(Effective(c, id)), at).value;
      values == if ValuesAt(c, Origin(c, id, at)).Some? then ValuesAt(c, Origin(c, id, at)).value else map[]
    ensures MarksAt(AsDocument(Effective(c, id)), at) == OrElse(OwnMarks(c, id, at), MarksAt(c, at))
  {
    hide Effective;
    match at
    case Env(n) => ServerInEffect(c, id, n);
    case Headers(n) => ServerInEffect(c, id, n);
    case SourceEnv(n) => SourceInEffect(c, id, n);
  }

  /** The effective view hides this value, while the public view of the document shows it. */
  predicate Leaks(c: Config, id: string, at: Slot, key: string)
    requires IsGlobal(at)
  {
    var shown, there := ValuesAt(AsDocument(EffectiveView(c, id)), at), ValuesAt(Public(c), Origin(c, id, at));
    && shown.Some? && key in shown.value && shown.value[key] == REDACTED_VALUE
    && there.Some? && key in there.value && there.value[key] != REDACTED_VALUE
  }

  /**
   What makes a value leak: its mark is set on the other side of the override. The patch sets the value and
   leaves the mark to the global settings, or sets the mark for a value it leaves to them.
   */
  predicate MarkedElsewhere(c: Config, id: string, at: Slot, key: string)
    requires IsGlobal(at)
  {
    var own, global := OwnMarks(c, id, at), MarksAt(c, at);
    && !LooksSecret(key)
    && if ValuesAt(c, InProject(id, at)).Some? then own.None? && key in global
       else own.Some? && key in own.value && key !in global
  }

  /** A value in effect leaks exactly if its mark is set elsewhere. */
  lemma LeaksIff(c: Config, id: string, at: Slot, key: string)
    requires IsGlobal(at) && id in c.projects && !Removed(c, id, at)
    requires ValuesAt(AsDocument(Effective(c, id)), at).Some?
    requires
      var values := ValuesAt(AsDocument(Effective(c, id)), at).value;
      key in values && values[key] != REDACTED_VALUE
    ensures Leaks(c, id, at, key) <==> MarkedElsewhere(c, id, at, key)
  {
    hide Effective, PublicSettings, LooksSecret;
    InEffect(c, id, at);
    PublicAt(c, Origin(c, id, at));
    PublicAt(AsDocument(Effective(c, id)), at);
    ViewAsDocument(c, id, at);
  }

  lemma ViewAsDocument(c: Config, id: string, at: Slot)
    requires IsGlobal(at)
    ensures ValuesAt(AsDocument(EffectiveView(c, id)), at) == ValuesAt(Public(AsDocument(Effective(c, id))), at)
  {
  }

  /** No marker has fewer than five letters. */
  lemma ShortKeysLookHarmless(key: string)
    requires |key| < 5
    ensures !LooksSecret(key)
  {
    var name := Underscored(ToLower(key));
    forall i | 0 <= i < |SECRET_MARKERS|
      ensures !Contains(name, SECRET_MARKERS[i])
    {
      assert |SECRET_MARKERS[i]| >= 5;
    }
  }

  /**
   A project that overrides a marked value without marking it again shows its own value to readers of the document.
   */
  lemma UnmarkedOverrideLeaks(c: Config, id: string, server: string, key: string)
    requires id in c.projects && ServerPatchAt(c, id, server).Some? && server in c.global.servers
    requires !Removed(c, id, Env(server)) && !LooksSecret(key) && key in c.global.servers[server].secretEnv
    requires
      var patch := ServerPatchAt(c, id, server).value;
      patch.secretEnv.None? && patch.env.Some? && key in patch.env.value && patch.env.value[key] != REDACTED_VALUE
    ensures Leaks(c, id, Env(server), key)
  {
    LeaksIff(c, id, Env(server), key);
  }

  // ---- Such a document ----

  function LeakingServer(fields: Values, value: string): Server {
    Server(fields, map["KEY" := value], ["KEY"], map[], [])
  }

  function LeakingProject(): Project {
    var patch := ServerPatch(map[], Some(map["KEY" := "new"]), None, None, None);
    Project("/p", NO_PATCH.(mcp := Some(McpPatch(map["s" := patch], []))))
  }

  function LeakingSettings(fields: Values, value: string): Settings {
    Settings(Tools([], "strict", "never"), map["s" := LeakingServer(fields, value)], map[], false, map[])
  }

  /** One server with a marked value, and one project that gives the value anew. */
  function LeakingDocument(fields: Values): Config {
    Config(CURRENT_VERSION, 1, LeakingSettings(fields, "old"), map["p" := LeakingProject()])
  }

  lemma LeakingEffective(fields: Values)
    ensures Effective(LeakingDocument(fields), "p") == LeakingSettings(fields, "new")
  {
    var c := LeakingDocument(fields);
    assert fields + map[] == fields;
    assert Effective(c, "p").servers == map["s" := LeakingServer(fields, "new")];
  }

  lemma LeakingSettingsValid(fields: Values, value: string, rules: Rules)
    requires rules.server(LeakingServer(fields, value))
    ensures ValidSettings(LeakingSettings(fields, value), rules)
  {
    BlankMeansSpaces("KEY");
    assert !IsSpace("KEY"[0]);
    assert ValidName("s") && UniqueNonEmpty(["KEY"]);
  }

  lemma LeakingIsValid(fields: Values, rules: Rules)
    requires rules.server(LeakingServer(fields, "old")) && rules.server(LeakingServer(fields, "new"))
    ensures Valid(LeakingDocument(fields), rules)
  {
    hide Effective, ValidSettings, TrimLeft, TrimRight;
    LeakingEffective(fields);
    LeakingSettingsValid(fields, "old", rules);
    LeakingSettingsValid(fields, "new", rules);
    BlankMeansSpaces("/p");
    assert !IsSpace("/p"[0]) && ValidName("p");
  }

  /** It validates whenever the server's other fields do, and it leaks. */
  lemma LeakingInput(fields: Values, rules: Rules)
    requires rules.server(LeakingServer(fields, "old")) && rules.server(LeakingServer(fields, "new"))
    ensures Valid(LeakingDocument(fields), rules) && Leaks(LeakingDocument(fields), "p", Env("s"), "KEY")
  {
    hide Leaks, LooksSecret, Valid;
    LeakingIsValid(fields, rules);
    ShortKeysLookHarmless("KEY");
    UnmarkedOverrideLeaks(LeakingDocument(fields), "p", "s", "KEY");
  }
}
