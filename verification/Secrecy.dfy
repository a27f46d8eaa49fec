/**
 Which values readers see and which they do not, told from the keys' own letters, and what restoring an edit changes.
 */
module Secrecy {
  import opened Text
  import opened Redaction
  import opened Wrappers

  /** A character of a key that stands for one of a marker: letters without case, and three ways to separate words. */
  predicate Spells(c: char, m: char) {
    || c == m
    || ('a' <= m <= 'z' && c as int + 32 == m as int)
    || (m == '_' && (c == '-' || c == ' '))
    || (m == 'k' && c == '\U{212A}')
    || (m == 'i' && c == '\U{130}')
  }

  predicate SpelledAt(key: string, at: nat, marker: string) {
    at + |marker| <= |key| && forall j :: 0 <= j < |marker| ==> Spells(key[at + j], marker[j])
  }

  /** The key spells one of the words that mark a secret, somewhere. */
  predicate SpellsSecret(key: string) {
    exists at :: 0 <= at <= |key| &&
                 (|| SpelledAt(key, at, "authorization") || SpelledAt(key, at, "credential")
                  || SpelledAt(key, at, "password") || SpelledAt(key, at, "passwd") || SpelledAt(key, at, "secret")
                  || SpelledAt(key, at, "token") || SpelledAt(key, at, "api_key") || SpelledAt(key, at, "cookie"))
  }

  function Normal(key: string): string {
    Underscored(ToLower(key))
  }

  lemma NormalSpells(key: string, i: nat, m: char)
    requires i < |key| && ('a' <= m <= 'z' || m == '_')
    ensures Normal(key)[i] == m <==> Spells(key[i], m)
  {
  }

  predicate Plain(marker: string) {
    forall j :: 0 <= j < |marker| ==> 'a' <= marker[j] <= 'z' || marker[j] == '_'
  }

  lemma PrefixSpells(key: string, at: nat, marker: string)
    requires Plain(marker) && at <= |key|
    ensures HasPrefix(Normal(key)[at..], marker) <==> SpelledAt(key, at, marker)
  {
    NormalLength(key);
    hide Spells, Underscored, ToLower, Normal;
    var rest := Normal(key)[at..];
    if at + |marker| <= |key| {
      forall j | 0 <= j < |marker|
        ensures rest[j] == marker[j] <==> Spells(key[at + j], marker[j])
      {
        NormalSpells(key, at + j, marker[j]);
      }
      assert forall j :: 0 <= j < |marker| ==> rest[..|marker|][j] == rest[j];
    }
  }

  lemma NormalLength(key: string)
    ensures |Normal(key)| == |key|
  {
  }

  lemma ContainsSpells(key: string, marker: string)
    requires Plain(marker)
    ensures Contains(Normal(key), marker) <==> exists at :: 0 <= at <= |key| && SpelledAt(key, at, marker)
  {
    hide SpelledAt, HasPrefix, Normal;
    NormalLength(key);
    forall at | 0 <= at <= |key|
      ensures HasPrefix(Normal(key)[at..], marker) <==> SpelledAt(key, at, marker)
    {
      PrefixSpells(key, at, marker);
    }
  }

  lemma MarkersArePlain()
    ensures forall i :: 0 <= i < |SECRET_MARKERS| ==> Plain(SECRET_MARKERS[i])
  {
  }

  /** A key looks secret exactly if it spells one of the words. */
  lemma LooksSecretIff(key: string)
    ensures LooksSecret(key) <==> SpellsSecret(key)
  {
    hide SpelledAt, Contains, Plain;
    MarkersArePlain();
    forall i | 0 <= i < |SECRET_MARKERS|
      ensures Contains(Normal(key), SECRET_MARKERS[i]) <==>
              exists at :: 0 <= at <= |key| && SpelledAt(key, at, SECRET_MARKERS[i])
    {
      ContainsSpells(key, SECRET_MARKERS[i]);
    }
    assert SECRET_MARKERS[0] == "authorization" && SECRET_MARKERS[1] == "credential" && SECRET_MARKERS[2] == "password";
    assert SECRET_MARKERS[3] == "passwd" && SECRET_MARKERS[4] == "secret" && SECRET_MARKERS[5] == "token";
    assert SECRET_MARKERS[6] == "api_key" && SECRET_MARKERS[7] == "cookie";
  }

  // ---- Keys ----

  lemma SeveralSeparators()
    ensures SpellsSecret("X-Api-Key") && SpellsSecret("DB_PASSWORD") && SpellsSecret("session token")
  {
    assert SpelledAt("X-Api-Key", 2, "api_key");
    assert SpelledAt("DB_PASSWORD", 3, "password");
    assert SpelledAt("session token", 8, "token");
  }

  lemma NotSpelled(key: string, marker: string, j: nat)
    requires j < |marker| && forall i :: 0 <= i < |key| ==> !Spells(key[i], marker[j])
    ensures forall at :: 0 <= at <= |key| ==> !SpelledAt(key, at, marker)
  {
    hide Spells;
    forall at | 0 <= at <= |key| && at + |marker| <= |key|
      ensures !SpelledAt(key, at, marker)
    {
      assert !Spells(key[at + j], marker[j]);
    }
  }

  /** A harmless key: every word has a letter that it lacks. */
  lemma HarmlessKey()
    ensures !SpellsSecret("DATABASE_URL")
  {
    var key := "DATABASE_URL";
    NotSpelled(key, "authorization", 4);
    NotSpelled(key, "credential", 0);
    NotSpelled(key, "password", 0);
    NotSpelled(key, "passwd", 0);
    NotSpelled(key, "secret", 2);
    NotSpelled(key, "token", 1);
    NotSpelled(key, "api_key", 1);
    NotSpelled(key, "cookie", 0);
  }

  // ---- What is shown ----

  /** `shown` hides the values at marked keys and at keys that spell a secret, and shows all the others. */
  ghost predicate Shows(shown: Values, values: Values, marked: seq<string>) {
    && shown.Keys == values.Keys
    && forall k :: k in values ==> shown[k] == if k in marked || SpellsSecret(k) then "[redacted]" else values[k]
  }

  ghost predicate ShowsSome(shown: Option<Values>, values: Option<Values>, marked: Option<seq<string>>) {
    && (shown.Some? <==> values.Some?)
    && (values.Some? ==> Shows(shown.value, values.value, if marked.Some? then marked.value else []))
  }

  lemma RedactShows(values: Values, marked: seq<string>)
    ensures Shows(Redact(values, marked), values, marked)
  {
    hide SpellsSecret, LooksSecret;
    forall k | k in values
      ensures LooksSecret(k) <==> SpellsSecret(k)
    {
      LooksSecretIff(k);
    }
  }

  lemma RedactSomeShows(values: Option<Values>, marked: Option<seq<string>>)
    ensures ShowsSome(RedactSome(values, marked), values, marked)
  {
    hide Shows, Redact;
    if values.Some? {
      RedactShows(values.value, Listed(marked));
    }
  }

  /** The public view of the global settings: the same servers and sources, their values shown by their own marks. */
  lemma GlobalViewMeans(c: Config, n: string)
    ensures n in Public(c).global.servers <==> n in c.global.servers
    ensures n in Public(c).global.sources <==> n in c.global.sources
    ensures n in c.global.servers ==>
              var shown, server := Public(c).global.servers[n], c.global.servers[n];
              && Shows(shown.env, server.env, server.secretEnv)
              && Shows(shown.headers, server.headers, server.secretHeaders)
              && shown == server.(env := shown.env, headers := shown.headers)
    ensures n in c.global.sources ==>
              var shown, source := Public(c).global.sources[n], c.global.sources[n];
              Shows(shown.env, source.env, source.secretEnv) && shown == source.(env := shown.env)
  {
    hide Shows, Redact;
    if n in c.global.servers {
      RedactShows(c.global.servers[n].env, c.global.servers[n].secretEnv);
      RedactShows(c.global.servers[n].headers, c.global.servers[n].secretHeaders);
    }
    if n in c.global.sources {
      RedactShows(c.global.sources[n].env, c.global.sources[n].secretEnv);
    }
  }

  /** The public view of a project's patches of servers and sources. */
  lemma ProjectViewMeans(c: Config, id: string, n: string)
    ensures id in Public(c).projects <==> id in c.projects
    ensures id in c.projects && c.projects[id].settings.mcp.Some? ==>
              var shown, patch := Public(c).projects[id].settings.mcp, c.projects[id].settings.mcp.value;
              && shown.Some? && (n in shown.value.servers <==> n in patch.servers)
              && (n in patch.servers ==>
                    var p, q := patch.servers[n], shown.value.servers[n];
                    && ShowsSome(q.env, p.env, p.secretEnv) && ShowsSome(q.headers, p.headers, p.secretHeaders)
                    && q == p.(env := q.env, headers := q.headers))
    ensures id in c.projects && c.projects[id].settings.extensions.Some? ==>
              var shown, patch := Public(c).projects[id].settings.extensions, c.projects[id].settings.extensions.value;
              && shown.Some? && (n in shown.value.sources <==> n in patch.sources)
              && (n in patch.sources ==>
                    var p, q := patch.sources[n], shown.value.sources[n];
                    ShowsSome(q.env, p.env, p.secretEnv) && q == p.(env := q.env))
  {
    hide ShowsSome, RedactSome;
    if id in c.projects && c.projects[id].settings.mcp.Some? && n in c.projects[id].settings.mcp.value.servers {
      var p := c.projects[id].settings.mcp.value.servers[n];
      RedactSomeShows(p.env, p.secretEnv);
      RedactSomeShows(p.headers, p.secretHeaders);
    }
    if id in c.projects && c.projects[id].settings.extensions.Some?
       && n in c.projects[id].settings.extensions.value.sources {
      var p := c.projects[id].settings.extensions.value.sources[n];
      RedactSomeShows(p.env, p.secretEnv);
    }
  }

  // ---- What neither the view nor the restoration touches ----

  function PlainServer(s: Server): Server {
    s.(env := map[], secretEnv := [], headers := map[], secretHeaders := [])
  }

  function PlainSource(s: Source): Source {
    s.(env := map[], secretEnv := [])
  }

  function PlainServerPatch(p: ServerPatch): ServerPatch {
    p.(env := None, secretEnv := None, headers := None, secretHeaders := None)
  }

  function PlainSourcePatch(p: SourcePatch): SourcePatch {
    p.(env := None, secretEnv := None)
  }

  function PlainMcp(p: Option<McpPatch>): Option<McpPatch> {
    if p.None? then None
    else Some(p.value.(servers := map n | n in p.value.servers :: PlainServerPatch(p.value.servers[n])))
  }

  function PlainExtensions(p: Option<ExtensionPatch>): Option<ExtensionPatch> {
    if p.None? then None
    else Some(p.value.(sources := map n | n in p.value.sources :: PlainSourcePatch(p.value.sources[n])))
  }

  function PlainProject(p: Project): Project {
    p.(settings := p.settings.(mcp := PlainMcp(p.settings.mcp), extensions := PlainExtensions(p.settings.extensions)))
  }

  /** A document without environment and header values and their marks. */
  function WithoutValues(c: Config): Config {
    c.(global := c.global.(servers := map n | n in c.global.servers :: PlainServer(c.global.servers[n]),
                           sources := map n | n in c.global.sources :: PlainSource(c.global.sources[n])),
       projects := map id | id in c.projects :: PlainProject(c.projects[id]))
  }

  /** Everything else is shown as it is. */
  lemma ViewKeepsTheRest(c: Config)
    ensures WithoutValues(Public(c)) == WithoutValues(c)
  {
    hide Redact, RedactSome;
    forall id | id in c.projects
      ensures PlainProject(PublicProject(c.projects[id])) == PlainProject(c.projects[id])
    {
      ProjectViewKeeps(c.projects[id]);
    }
    var a, b := WithoutValues(Public(c)), WithoutValues(c);
    assert a.global.servers == b.global.servers && a.global.sources == b.global.sources;
    assert a.projects == b.projects;
  }

  lemma ProjectViewKeeps(p: Project)
    ensures PlainProject(PublicProject(p)) == PlainProject(p)
  {
    hide Redact, RedactSome;
    var shown := PublicProject(p);
    if p.settings.mcp.Some? {
      assert PlainMcp(shown.settings.mcp).value.servers == PlainMcp(p.settings.mcp).value.servers;
    }
    if p.settings.extensions.Some? {
      assert PlainExtensions(shown.settings.extensions).value.sources ==
        PlainExtensions(p.settings.extensions).value.sources;
    }
  }

  /** Every other edit of a candidate is kept by the restoration. */
  lemma RestorationKeepsTheRest(c: Config, prev: Config, order: Order)
    ensures WithoutValues(Restored(c, prev, order)) == WithoutValues(c)
  {
    hide Restore, RestoreSome, RestoreMarks, RestorePatchMarks;
    forall id | id in c.projects && id in prev.projects
      ensures PlainProject(RestoreProject(c.projects[id], prev.projects[id], order)) == PlainProject(c.projects[id])
    {
      ProjectRestorationKeeps(c.projects[id], prev.projects[id], order);
    }
    var a, b := WithoutValues(Restored(c, prev, order)), WithoutValues(c);
    assert a.global.servers == b.global.servers && a.global.sources == b.global.sources;
    assert a.projects == b.projects;
  }

  lemma ProjectRestorationKeeps(c: Project, prev: Project, order: Order)
    ensures PlainProject(RestoreProject(c, prev, order)) == PlainProject(c)
  {
    hide Restore, RestoreSome, RestoreMarks, RestorePatchMarks;
    var restored := RestoreProject(c, prev, order);
    if c.settings.mcp.Some? {
      assert PlainMcp(restored.settings.mcp).value.servers == PlainMcp(c.settings.mcp).value.servers;
    }
    if c.settings.extensions.Some? {
      assert PlainExtensions(restored.settings.extensions).value.sources ==
        PlainExtensions(c.settings.extensions).value.sources;
    }
  }

  // ---- What the restoration changes ----

  /** Value by value: a placeholder is replaced by the old value at its place, if there is one; any other edit stays. */
  lemma RestoredValue(c: Config, prev: Config, order: Order, slot: Slot, key: string)
    ensures ValuesAt(Restored(c, prev, order), slot).Some? <==> ValuesAt(c, slot).Some?
    ensures ValuesAt(c, slot).Some? ==>
              var before, given := ValuesAt(prev, slot), ValuesAt(c, slot).value;
              var restored := ValuesAt(Restored(c, prev, order), slot).value;
              && (key in restored <==> key in given)
              && (key in given && given[key] != "[redacted]" ==> restored[key] == given[key])
              && (key in given && given[key] == "[redacted]" ==>
                    restored[key] ==
                    if before.Some? && key in before.value then before.value[key] else "[redacted]")
  {
    hide Restored, ValuesAt;
    RestoredAt(c, prev, order, slot);
  }

  /** Marks are never dropped, and only marks that were there come back. */
  lemma RestoredMarks(c: Config, prev: Config, order: Order, slot: Slot, key: string)
    ensures key in MarksAt(c, slot) ==> key in MarksAt(Restored(c, prev, order), slot)
    ensures key in MarksAt(Restored(c, prev, order), slot) ==> key in MarksAt(c, slot) || key in MarksAt(prev, slot)
  {
    hide Restore, RestoreMarks, RestorePatchMarks, Redact;
    match slot
    case Env(n) => if n in c.global.servers && n in prev.global.servers {
      var a, b := c.global.servers[n], prev.global.servers[n];
      MarksBetween(a.env, a.secretEnv, b.env, b.secretEnv, order, key);
    }
    case Headers(n) => if n in c.global.servers && n in prev.global.servers {
      var a, b := c.global.servers[n], prev.global.servers[n];
      MarksBetween(a.headers, a.secretHeaders, b.headers, b.secretHeaders, order, key);
    }
    case SourceEnv(n) => if n in c.global.sources && n in prev.global.sources {
      var a, b := c.global.sources[n], prev.global.sources[n];
      MarksBetween(a.env, a.secretEnv, b.env, b.secretEnv, order, key);
    }
    case ProjectEnv(p, n) => if ServerPatchAt(c, p, n).Some? && ServerPatchAt(prev, p, n).Some? {
      var a, b := ServerPatchAt(c, p, n).value, ServerPatchAt(prev, p, n).value;
      PatchMarksBetween(a.env, a.secretEnv, b.env, b.secretEnv, order, key);
    }
    case ProjectHeaders(p, n) => if ServerPatchAt(c, p, n).Some? && ServerPatchAt(prev, p, n).Some? {
      var a, b := ServerPatchAt(c, p, n).value, ServerPatchAt(prev, p, n).value;
      PatchMarksBetween(a.headers, a.secretHeaders, b.headers, b.secretHeaders, order, key);
    }
    case ProjectSourceEnv(p, n) => if SourcePatchAt(c, p, n).Some? && SourcePatchAt(prev, p, n).Some? {
      var a, b := SourcePatchAt(c, p, n).value, SourcePatchAt(prev, p, n).value;
      PatchMarksBetween(a.env, a.secretEnv, b.env, b.secretEnv, order, key);
    }
  }

  lemma MarksBetween(values: Values, marked: seq<string>, prev: Values, prevMarked: seq<string>, order: Order,
                     key: string)
    ensures key in marked ==> key in RestoreMarks(values, marked, prev, prevMarked, order)
    ensures key in RestoreMarks(values, marked, prev, prevMarked, order) ==> key in marked || key in prevMarked
  {
    AddAllMembers(marked, order(values.Keys),
                  k => k in values && values[k] == REDACTED_VALUE && k in prev && k in prevMarked);
  }

  lemma PatchMarksBetween(values: Option<Values>, marked: Option<seq<string>>, prev: Option<Values>,
                          prevMarked: Option<seq<string>>, order: Order, key: string)
    ensures
      var marks := Listed(RestorePatchMarks(values, marked, prev, prevMarked, order));
      (key in Listed(marked) ==> key in marks) && (key in marks ==> key in Listed(marked) || key in Listed(prevMarked))
  {
    if values.Some? && prev.Some? && prevMarked.Some? {
      var restored := Restore(values.value, prev.value);
      var wanted := (k: string) => k in restored && restored[k] == Get(prev.value, k) && k in prevMarked.value;
      AddAllMembers(Listed(marked), order(restored.Keys), wanted);
    }
  }
}
