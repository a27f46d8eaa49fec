/** What effective settings and valid documents are, field by field and in plain values. */
module ConfigMeaning {
  import opened Text
  import opened Redaction
  import opened ConfigStore
  import opened Wrappers

  // ---- Effective settings ----

  /** Each tool setting is the project's if its patch has one, and the global one otherwise. */
  lemma ToolsMean(c: Config, id: string)
    requires id in c.projects
    ensures
      var tools, global, patch := Effective(c, id).tools, c.global.tools, c.projects[id].settings.tools;
      && (patch.Some? && patch.value.enabled.Some? ==> tools.enabled == patch.value.enabled.value)
      && (patch.Some? && patch.value.sandbox.Some? ==> tools.sandbox == patch.value.sandbox.value)
      && (patch.Some? && patch.value.approval.Some? ==> tools.approval == patch.value.approval.value)
      && (patch.None? || patch.value.enabled.None? ==> tools.enabled == global.enabled)
      && (patch.None? || patch.value.sandbox.None? ==> tools.sandbox == global.sandbox)
      && (patch.None? || patch.value.approval.None? ==> tools.approval == global.approval)
  {
  }

  /** The other sections are the global ones; each field of one is the patch's if it has one there. */
  lemma SectionsMean(c: Config, id: string, name: string, field: string)
    requires id in c.projects && name in c.global.other
    ensures
      var other, patch := Effective(c, id).other, c.projects[id].settings.other;
      && other.Keys == c.global.other.Keys
      && (name in patch && field in patch[name] ==>
            field in other[name] && other[name][field] == patch[name][field])
      && (name !in patch || field !in patch[name] ==>
            && (field in other[name] <==> field in c.global.other[name])
            && (field in other[name] ==> other[name][field] == c.global.other[name][field]))
  {
  }

  /** Which sources a project has and what each is: removed, inherited unchanged, patched, or made by the patch. */
  lemma SourcesMean(c: Config, id: string, name: string)
    requires id in c.projects && c.projects[id].settings.extensions.Some?
    ensures
      var patch := c.projects[id].settings.extensions.value;
      var sources, global := Effective(c, id).sources, c.global.sources;
      && (name in sources <==> name !in patch.removed && (name in patch.sources || name in global))
      && (name in sources && name !in patch.sources ==> sources[name] == global[name])
      && (name in sources && name in patch.sources ==>
            var inherited := if name in global then global[name] else Source(map[], map[], []);
            && sources[name].fields == inherited.fields + patch.sources[name].fields
            && (patch.sources[name].env.Some? ==> sources[name].env == patch.sources[name].env.value)
            && (patch.sources[name].env.None? ==> sources[name].env == inherited.env)
            && (patch.sources[name].secretEnv.Some? ==> sources[name].secretEnv == patch.sources[name].secretEnv.value)
            && (patch.sources[name].secretEnv.None? ==> sources[name].secretEnv == inherited.secretEnv))
  {
  }

  /** What a project does not patch it inherits; an unknown project has the global settings. */
  lemma RestIsInherited(c: Config, id: string)
    ensures id !in c.projects ==> Effective(c, id) == c.global
    ensures
      id in c.projects ==>
        var settings, patch := Effective(c, id), c.projects[id].settings;
        && (patch.mcp.None? ==> settings.servers == c.global.servers)
        && (patch.extensions.None? ==> settings.sources == c.global.sources)
        && settings.allowUnsigned ==
           if patch.extensions.Some? && patch.extensions.value.allowUnsigned.Some?
           then patch.extensions.value.allowUnsigned.value else c.global.allowUnsigned
  {
  }

  // ---- Valid documents ----

  /** Names of servers, sources and projects: up to 128 letters, digits and separators, no separator in front. */
  lemma NameMeans(s: string)
    ensures ValidName(s) <==>
            && 1 <= |s| <= 128
            && ('a' <= s[0] <= 'z' || 'A' <= s[0] <= 'Z' || '0' <= s[0] <= '9')
            && forall i :: 0 <= i < |s| ==>
                 || 'a' <= s[i] <= 'z' || 'A' <= s[i] <= 'Z' || '0' <= s[i] <= '9'
                 || s[i] == '_' || s[i] == '.' || s[i] == '-'
  {
  }

  ghost predicate HasText(s: string) {
    exists k :: 0 <= k < |s| && !IsSpace(s[k])
  }

  /** No blank entry and none twice. */
  ghost predicate Proper(list: seq<string>) {
    && (forall i :: 0 <= i < |list| ==> HasText(list[i]))
    && (forall i, j :: 0 <= i < |list| && 0 <= j < |list| && list[i] == list[j] ==> i == j)
  }

  lemma TextIsNotBlank(s: string)
    ensures HasText(s) <==> !Blank(s)
  {
    BlankMeansSpaces(s);
  }

  lemma ProperMeans(list: seq<string>)
    ensures UniqueNonEmpty(list) <==> Proper(list)
  {
    hide HasText, Blank;
    forall i | 0 <= i < |list|
      ensures HasText(list[i]) <==> !Blank(list[i])
    {
      TextIsNotBlank(list[i]);
    }
  }

  /** Settings that validate: known modes, proper lists, valid names, and a value for every marked key. */
  ghost predicate Acceptable(s: Settings, rules: Rules) {
    && Proper(s.tools.enabled)
    && s.tools.sandbox in {"strict", "workspace", "off"} && s.tools.approval in {"never", "on-request", "always"}
    && (forall n :: n in s.servers ==>
          && ValidName(n) && rules.server(s.servers[n])
          && Proper(s.servers[n].secretEnv) && (forall k :: k in s.servers[n].secretEnv ==> k in s.servers[n].env)
          && Proper(s.servers[n].secretHeaders)
          && (forall k :: k in s.servers[n].secretHeaders ==> k in s.servers[n].headers))
    && (forall n :: n in s.sources ==>
          && ValidName(n) && rules.source(s.sources[n])
          && Proper(s.sources[n].secretEnv) && (forall k :: k in s.sources[n].secretEnv ==> k in s.sources[n].env))
    && (forall n :: n in s.other ==> rules.section(n, s.other[n]))
  }

  lemma SettingsMean(s: Settings, rules: Rules)
    ensures ValidSettings(s, rules) <==> Acceptable(s, rules)
  {
    hide UniqueNonEmpty, Proper, ValidName;
    ProperMeans(s.tools.enabled);
    forall n | n in s.servers
      ensures UniqueNonEmpty(s.servers[n].secretEnv) <==> Proper(s.servers[n].secretEnv)
      ensures UniqueNonEmpty(s.servers[n].secretHeaders) <==> Proper(s.servers[n].secretHeaders)
    {
      ProperMeans(s.servers[n].secretEnv);
      ProperMeans(s.servers[n].secretHeaders);
    }
    forall n | n in s.sources
      ensures UniqueNonEmpty(s.sources[n].secretEnv) <==> Proper(s.sources[n].secretEnv)
    {
      ProperMeans(s.sources[n].secretEnv);
    }
  }

  /** What a project's patch removes: named once each, and nothing that it patches as well. */
  ghost predicate AcceptableRemoval(removed: seq<string>, patched: set<string>) {
    Proper(removed) && forall n :: n in removed ==> ValidName(n) && n !in patched
  }

  /**
   A document validates if it is of version 1 and of a revision other than 0, its global settings are acceptable, and
   every project has a name, a rooted folder, removals in order and acceptable effective settings.
   */
  lemma ValidMeans(c: Config, rules: Rules)
    ensures Valid(c, rules) <==>
            && c.version == 1 && c.revision != 0 && Acceptable(c.global, rules)
            && forall id :: id in c.projects ==>
                 var project := c.projects[id];
                 && ValidName(id) && project.folder != "" && project.folder[0] == '/'
                 && (project.settings.mcp.Some? ==>
                       AcceptableRemoval(project.settings.mcp.value.removed, project.settings.mcp.value.servers.Keys))
                 && (project.settings.extensions.Some? ==>
                       AcceptableRemoval(project.settings.extensions.value.removed,
                                         project.settings.extensions.value.sources.Keys))
                 && Acceptable(Effective(c, id), rules)
  {
    hide ValidSettings, Acceptable, ValidPatch, AcceptableRemoval, Blank, ValidName, Effective;
    SettingsMean(c.global, rules);
    forall id | id in c.projects
      ensures ValidSettings(Effective(c, id), rules) <==> Acceptable(Effective(c, id), rules)
      ensures
        ValidPatch(c.projects[id].settings) <==>
        && (c.projects[id].settings.mcp.Some? ==>
              AcceptableRemoval(c.projects[id].settings.mcp.value.removed,
                                c.projects[id].settings.mcp.value.servers.Keys))
        && (c.projects[id].settings.extensions.Some? ==>
              AcceptableRemoval(c.projects[id].settings.extensions.value.removed,
                                c.projects[id].settings.extensions.value.sources.Keys))
      ensures IsAbsolute(c.projects[id].folder) ==> !Blank(c.projects[id].folder)
    {
      SettingsMean(Effective(c, id), rules);
      PatchMeans(c.projects[id].settings);
      RootedIsNotBlank(c.projects[id].folder);
    }
  }

  lemma PatchMeans(p: SettingsPatch)
    ensures ValidPatch(p) <==>
            && (p.mcp.Some? ==> AcceptableRemoval(p.mcp.value.removed, p.mcp.value.servers.Keys))
            && (p.extensions.Some? ==> AcceptableRemoval(p.extensions.value.removed, p.extensions.value.sources.Keys))
  {
    hide UniqueNonEmpty, Proper, ValidName;
    if p.mcp.Some? {
      ProperMeans(p.mcp.value.removed);
    }
    if p.extensions.Some? {
      ProperMeans(p.extensions.value.removed);
    }
  }

  lemma RootedIsNotBlank(folder: string)
    ensures folder != "" && folder[0] == '/' ==> !Blank(folder)
  {
    BlankMeansSpaces(folder);
  }
}
