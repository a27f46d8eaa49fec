/** Which host paths a program shows, and which configurations are accepted. */
module SandboxView {
  import opened Text
  import opened Wrappers
  import opened SandboxPaths
  import opened Bubblewrap

  // ---- What is mounted ----

  /** Where a read-only mount comes from: a system path, what one resolves to, or what a read path resolves to. */
  ghost predicate SystemSource(host: Host, paths: seq<string>, m: Mount) {
    exists q :: q in paths && m.at == q &&
                ((m.RoBind? && host.entry(q) == Plain && m.source == q)
                 || (m.RoBind? && host.entry(q).Link? && host.resolve(q) == Some(m.source)
                     && !WithinAny(host.entry(q).targetPath, paths))
                 || (m.Symlink? && host.entry(q).Link? && host.entry(q).target == m.target
                     && WithinAny(host.entry(q).targetPath, paths)))
  }

  ghost predicate ReadSource(host: Host, paths: seq<string>, m: Mount) {
    m.RoBind? && exists q :: q in paths && host.resolve(q) == Some(m.source) && (m.at == q || m.at == m.source)
  }

  lemma {:induction false} SystemMountsAre(host: Host, paths: seq<string>, all: seq<string>, roots: seq<string>)
    requires SystemMounts(host, paths, roots).Some? && roots == all && forall q :: q in paths ==> q in all
    ensures forall m :: m in SystemMounts(host, paths, roots).value.mounts ==> SystemSource(host, all, m)
  {
    hide WithinAny;
    if paths != [] {
      var n := |paths| - 1;
      SystemMountsAre(host, paths[..n], all, roots);
      var mounts := SystemMount(host, paths[n], roots).value;
      forall m | m in mounts
        ensures SystemSource(host, all, m)
      {
        assert paths[n] in all && m.at == paths[n];
      }
    }
  }

  lemma {:induction false} ReadMountsAre(host: Host, paths: seq<string>, all: seq<string>, visible: seq<string>,
                                         writeRoots: seq<string>)
    requires ReadMounts(host, paths, visible, writeRoots).Some? && forall q :: q in paths ==> q in all
    ensures forall m :: m in ReadMounts(host, paths, visible, writeRoots).value.mounts ==>
            ReadSource(host, all, m) && m.source != "/"
  {
    hide WithinAny;
    if paths != [] {
      var n := |paths| - 1;
      ReadMountsAre(host, paths[..n], all, visible, writeRoots);
      var before := ReadMounts(host, paths[..n], visible, writeRoots).value;
      var mounts := ReadMount(host, paths[n], before.visible, writeRoots).value.mounts;
      forall m | m in mounts
        ensures ReadSource(host, all, m) && m.source != "/"
      {
        assert paths[n] in all && host.resolve(paths[n]) == Some(m.source);
      }
    }
  }

  /** The system paths as they are mounted: cleaned, sorted, each once. */
  function SystemPaths(host: Host, config: Config): seq<string> {
    Cleaned(config.systemPaths, host.clean)
  }

  lemma LayoutMountsAre(host: Host, config: Config)
    requires LayoutOf(host, config).Some?
    ensures
      var layout := LayoutOf(host, config).value;
      && (forall m :: m in layout.system.mounts ==> SystemSource(host, SystemPaths(host, config), m))
      && (forall m :: m in layout.shown.mounts ==> ReadSource(host, layout.readPaths, m) && m.source != "/")
  {
    hide LayoutOf, SystemMounts, ReadMounts, SystemSource, ReadSource;
    var layout := LayoutOf(host, config).value;
    var paths := SystemPaths(host, config);
    LayoutParts(host, config);
    SystemMountsAre(host, paths, paths, paths);
    ReadMountsAre(host, layout.readPaths, layout.readPaths, layout.system.visible, layout.writeRoots);
  }

  /** A path that shows a host path read-only is covered last by a system or a read mount. */
  lemma ReadOnlyWinner(host: Host, config: Config, p: string, h: string) returns (m: Mount)
    requires LayoutOf(host, config).Some?
             && ViewOf(ProgramOf(config, LayoutOf(host, config).value), p) == HostReadOnly(h)
    ensures
      var layout := LayoutOf(host, config).value;
      && (m in layout.system.mounts || m in layout.shown.mounts) && Winner(ProgramOf(config, layout), p) == Some(m)
      && m.RoBind? && Within(p, m.at) && h == Behind(p, m.at, m.source)
  {
    hide LayoutOf, Winner, ProgramOf, FreshMounts, Within, Behind;
    var layout := LayoutOf(host, config).value;
    m := Winner(ProgramOf(config, layout), p).value;
    ViewInParts(config, layout, p);
    FreshIsFresh(config, layout.workspace, layout.temporary, p);
    WinnerIsListed(ProgramOf(config, layout), p);
    WinnerIsListed(layout.shown.mounts, p);
    WinnerIsListed(layout.system.mounts, p);
  }

  // ---- Only what was asked for ----

  /** A host folder that the configuration names for reading: a system path, or what a path resolves to. */
  ghost predicate Named(host: Host, config: Config, readPaths: seq<string>, root: string) {
    || (exists q :: q in SystemPaths(host, config) && host.entry(q) == Plain && root == q)
    || (exists q :: q in SystemPaths(host, config) && host.entry(q).Link? && host.resolve(q) == Some(root))
    || (exists q :: q in readPaths && root != "/" && host.resolve(q) == Some(root))
  }

  lemma BehindStaysWithin(p: string, at: string, source: string)
    requires IsAbs(p) && Within(p, at)
    ensures Within(Behind(p, at, source), source)
  {
    if source != at && source != "/" && p != at {
      var rest := Beyond(p, at);
      if at != "/" {
        assert p[..|at| + 1] == at + "/";
        assert rest[0] == p[|at|] == (at + "/")[|at|];
      }
      assert rest != "" && rest[0] == '/';
      assert (source + rest)[..|source| + 1] == source + "/";
    }
  }

  /** Whatever a rooted path shows read-only lies in a host folder that the configuration names. */
  lemma ReadableIsNamed(host: Host, config: Config, p: string, h: string) returns (root: string)
    requires LayoutOf(host, config).Some? && IsAbs(p)
    requires ViewOf(ProgramOf(config, LayoutOf(host, config).value), p) == HostReadOnly(h)
    ensures Named(host, config, LayoutOf(host, config).value.readPaths, root) && Within(h, root)
  {
    hide LayoutOf, ViewOf, ProgramOf, Within, Behind;
    var m := ReadOnlyWinner(host, config, p, h);
    root := m.source;
    LayoutMountsAre(host, config);
    BehindStaysWithin(p, m.at, m.source);
  }

  // ---- Exactly what is mounted ----

  /** A path moved from one folder to another. */
  function Moved(x: string, from: string, other: string): string {
    Extended(other, Beyond(x, from))
  }

  lemma MovedBack(x: string, from: string, other: string)
    requires Canonical(x) && Canonical(from) && Canonical(other) && Within(x, from)
    ensures Within(Moved(x, from, other), other) && Canonical(Moved(x, from, other))
    ensures Moved(Moved(x, from, other), other, from) == x
  {
    var rest := Beyond(x, from);
    if x != from {
      if from != "/" {
        assert x[..|from| + 1] == from + "/" && x == from + rest;
        assert rest[0] == x[|from|] == (from + "/")[|from|] && rest[|rest| - 1] == x[|x| - 1];
      }
      assert |rest| >= 2 && rest[0] == '/' && rest[|rest| - 1] != '/';
      if other != "/" {
        var y := other + rest;
        assert y[..|other| + 1] == other + "/" && y[|other|..] == rest && y[|y| - 1] == rest[|rest| - 1];
      }
    }
  }

  lemma BehindMoves(p: string, at: string, source: string)
    requires Canonical(p) && Canonical(at) && Within(p, at)
    ensures Behind(p, at, source) == Moved(p, at, source)
  {
    if source == at && p != at && at != "/" {
      assert p[..|at| + 1] == at + "/";
      assert p == at + p[|at|..];
    }
  }

  /** A host that names files canonically. */
  ghost predicate CanonicalHost(host: Host) {
    && (forall p :: IsAbs(p) ==> Canonical(host.clean(p)))
    && (forall p :: host.resolve(p).Some? ==> Canonical(host.resolve(p).value))
  }

  lemma MountsAreCanonical(host: Host, config: Config, m: Mount)
    requires CanonicalHost(host) && LayoutOf(host, config).Some? && m.RoBind?
    requires m in LayoutOf(host, config).value.system.mounts || m in LayoutOf(host, config).value.shown.mounts
    ensures Canonical(m.at) && Canonical(m.source)
  {
    hide LayoutOf, Canonical;
    LayoutMountsAre(host, config);
    ListsAreCanonical(host, config);
  }

  lemma ListsAreCanonical(host: Host, config: Config)
    requires CanonicalHost(host) && LayoutOf(host, config).Some?
    ensures forall q :: q in SystemPaths(host, config) ==> Canonical(q)
    ensures forall q :: q in LayoutOf(host, config).value.readPaths ==> Canonical(q)
  {
    hide Canonical, SystemMounts, ReadMounts, Fault;
    CleanedAreCanonical(config.systemPaths, host.clean);
    var layout := LayoutOf(host, config).value;
    var wanted := ExplicitReads(config, layout.workspace, layout.workingDirectory);
    CleanedAreCanonical(wanted, host.clean);
    forall q | q in SystemPaths(host, config)
      ensures q in Elements(SystemPaths(host, config))
    {
    }
    forall q | q in layout.readPaths
      ensures q in Elements(Cleaned(wanted, host.clean))
    {
    }
  }

  /** The place where a read-only mount shows a host path. */
  ghost predicate ShownBy(program: Program, m: Mount, h: string) {
    m.RoBind? && Within(h, m.source) && Winner(program, Moved(h, m.source, m.at)) == Some(m)
  }

  /**
   Seen from the host: a path can be read from inside exactly if it is under a write root, or under the source of a
   system or read mount, at the place of which nothing is mounted later.
   */
  lemma HostPathReadableIff(host: Host, config: Config, h: string)
    requires CanonicalHost(host) && LayoutOf(host, config).Some? && Canonical(h)
    ensures
      var layout := LayoutOf(host, config).value;
      (exists p :: Canonical(p) && ViewOf(ProgramOf(config, layout), p) in {HostReadOnly(h), HostWritable(h)}) <==>
      || WithinAny(h, layout.writeRoots)
      || exists m :: (m in layout.system.mounts || m in layout.shown.mounts) && ShownBy(ProgramOf(config, layout), m, h)
  {
    hide LayoutOf, ProgramOf, Canonical, Within, WithinAny, Winner, Moved, ViewOf;
    var layout := LayoutOf(host, config).value;
    var program := ProgramOf(config, layout);
    if p :| Canonical(p) && ViewOf(program, p) in {HostReadOnly(h), HostWritable(h)} {
      WritableExactlyUnderWriteRoots(host, config, p);
      if ViewOf(program, p) == HostReadOnly(h) {
        var m := ReadOnlyWinner(host, config, p, h);
        MountsAreCanonical(host, config, m);
        BehindMoves(p, m.at, m.source);
        MovedBack(p, m.at, m.source);
        assert ShownBy(program, m, h);
      }
    }
    if WithinAny(h, layout.writeRoots) {
      WritableExactlyUnderWriteRoots(host, config, h);
    }
    if m :| (m in layout.system.mounts || m in layout.shown.mounts) && ShownBy(program, m, h) {
      MountsAreCanonical(host, config, m);
      MovedBack(h, m.source, m.at);
      var p := Moved(h, m.source, m.at);
      BehindMoves(p, m.at, m.source);
      MountIsSeen(program, m, p);
      assert ViewOf(program, p) == HostReadOnly(h);
    }
  }

  lemma MountIsSeen(program: Program, m: Mount, p: string)
    requires m.RoBind? && Winner(program, p) == Some(m)
    ensures ViewOf(program, p) == HostReadOnly(Behind(p, m.at, m.source))
  {
  }

  // ---- A real path shows itself ----

  /** No symlink on the way: every folder around the path resolves to itself and is no link. */
  ghost predicate IsReal(host: Host, p: string) {
    forall q :: Within(p, q) ==> (host.resolve(q).Some? ==> host.resolve(q) == Some(q)) && !host.entry(q).Link?
  }

  /** Where host content is shown at a real path, it is the content of that very path. */
  lemma RealPathShowsItself(host: Host, config: Config, p: string)
    requires CanonicalHost(host) && LayoutOf(host, config).Some? && Canonical(p) && IsReal(host, p)
    ensures
      var view := ViewOf(ProgramOf(config, LayoutOf(host, config).value), p);
      Shows(view) ==> view == HostReadOnly(p) || view == HostWritable(p)
  {
    hide LayoutOf, ProgramOf, Canonical, WithinAny, Winner, Within;
    var layout := LayoutOf(host, config).value;
    var view := ViewOf(ProgramOf(config, layout), p);
    WritableExactlyUnderWriteRoots(host, config, p);
    LayoutMountsAre(host, config);
    if view.HostReadOnly? {
      var m := ReadOnlyWinner(host, config, p, view.path);
      assert m.source == m.at;
    } else if view.Elsewhere? {
      LinkWinner(host, config, p);
    }
  }

  lemma LinkWinner(host: Host, config: Config, p: string)
    requires LayoutOf(host, config).Some? && ViewOf(ProgramOf(config, LayoutOf(host, config).value), p).Elsewhere?
    ensures exists q :: q in SystemPaths(host, config) && Within(p, q) && host.entry(q).Link?
  {
    hide LayoutOf, ProgramOf, FreshMounts, Within;
    var layout := LayoutOf(host, config).value;
    ViewInParts(config, layout, p);
    FreshIsFresh(config, layout.workspace, layout.temporary, p);
    WinnerIsListed(layout.shown.mounts, p);
    WinnerIsListed(layout.system.mounts, p);
    LayoutMountsAre(host, config);
    var m := Winner(layout.system.mounts, p).value;
    assert SystemSource(host, SystemPaths(host, config), m);
  }

  // ---- Which configurations are accepted ----

  lemma {:induction false} WriteFoldersAcceptedIff(host: Host, paths: seq<string>)
    ensures WriteFolders(host, paths).Some? <==>
            forall q :: q in paths ==> host.canonical(q).Some? && host.canonical(q).value != "/"
  {
    if paths != [] {
      var n := |paths| - 1;
      WriteFoldersAcceptedIff(host, paths[..n]);
      assert forall q :: q in paths <==> q in paths[..n] || q == paths[n];
    }
  }

  predicate GoodPath(q: string) {
    q != "" ==> q[0] == '/' && forall i :: 0 <= i < |q| ==> q[i] != '\0'
  }

  /** A list of paths is refused for a NUL character or a path that is not rooted; empty entries are skipped. */
  ghost predicate GoodList(paths: seq<string>) {
    forall q :: q in paths ==> GoodPath(q)
  }

  lemma GoodPathMeans(q: string)
    ensures GoodPath(q) <==> q == "" || (!HasNul(q) && IsAbs(q))
  {
  }

  lemma {:induction false} ListAcceptedIff(paths: seq<string>)
    ensures Fault(paths).None? <==> GoodList(paths)
  {
    hide GoodPath, HasNul, IsAbs;
    if paths != [] {
      var n := |paths| - 1;
      ListAcceptedIff(paths[..n]);
      GoodPathMeans(paths[n]);
      assert forall q :: q in paths <==> q in paths[..n] || q == paths[n];
    }
  }

  lemma CleanListIff(paths: seq<string>, host: Host)
    ensures CleanList(paths, host) == if GoodList(paths) then Some(Cleaned(paths, host.clean)) else None
  {
    hide GoodList, Fault, Cleaned;
    ListAcceptedIff(paths);
  }

  lemma {:induction false} SystemAcceptedIff(host: Host, paths: seq<string>, roots: seq<string>)
    ensures SystemMounts(host, paths, roots).Some? <==>
            forall q :: q in paths ==>
              && host.entry(q) != Unreadable
              && (host.entry(q).Link? && !WithinAny(host.entry(q).targetPath, roots) ==> host.resolve(q).Some?)
  {
    hide WithinAny;
    if paths != [] {
      var n := |paths| - 1;
      SystemAcceptedIff(host, paths[..n], roots);
      assert forall q :: q in paths <==> q in paths[..n] || q == paths[n];
    }
  }

  /** A read path must resolve to something that is there, and neither may be the root. */
  predicate Readable(host: Host, q: string) {
    q != "/" && host.resolve(q).Some? && host.resolve(q).value != "/" && host.present(host.resolve(q).value)
  }

  lemma OneReadAcceptedIff(host: Host, q: string, visible: seq<string>, writeRoots: seq<string>)
    ensures ReadMount(host, q, visible, writeRoots).Some? <==> Readable(host, q)
  {
    hide WithinAny;
  }

  lemma {:induction false} ReadsAcceptedIff(host: Host, paths: seq<string>, visible: seq<string>,
                                            writeRoots: seq<string>)
    ensures ReadMounts(host, paths, visible, writeRoots).Some? <==> forall q :: q in paths ==> Readable(host, q)
  {
    hide WithinAny, ReadMount, Readable;
    if paths != [] {
      var n := |paths| - 1;
      ReadsAcceptedIff(host, paths[..n], visible, writeRoots);
      var before := ReadMounts(host, paths[..n], visible, writeRoots);
      if before.Some? {
        OneReadAcceptedIff(host, paths[n], before.value.visible, writeRoots);
      }
      assert forall q :: q in paths <==> q in paths[..n] || q == paths[n];
    }
  }

  /** What the configuration asks to read, beside the system paths. */
  ghost predicate AsksToRead(config: Config, workspace: string, workingDirectory: string, q: string) {
    || q in config.extraReads || q == config.command
    || (q == workingDirectory && (!config.privateWorkspace || workingDirectory != workspace))
    || (config.allowNetwork && q in config.resolverPaths)
  }

  lemma ExplicitReadsAre(config: Config, workspace: string, workingDirectory: string)
    ensures forall q :: q in ExplicitReads(config, workspace, workingDirectory) <==>
                        AsksToRead(config, workspace, workingDirectory, q)
  {
  }

  /** What the read paths of an accepted configuration are: what it asks to read, cleaned. */
  lemma ReadPathsAre(host: Host, config: Config, p: string)
    requires LayoutOf(host, config).Some?
    ensures
      var layout := LayoutOf(host, config).value;
      p in layout.readPaths <==>
      exists q :: AsksToRead(config, layout.workspace, layout.workingDirectory, q) && q != "" && host.clean(q) == p
  {
    hide SystemMounts, ReadMounts, Fault, WriteRoots, Cleaned, ExplicitReads;
    var layout := LayoutOf(host, config).value;
    var wanted := ExplicitReads(config, layout.workspace, layout.workingDirectory);
    ExplicitReadsAre(config, layout.workspace, layout.workingDirectory);
    CleanedIsSorted(wanted, host.clean);
    assert layout.readPaths == Cleaned(wanted, host.clean);
    assert p in layout.readPaths <==> p in Elements(layout.readPaths);
    if p in layout.readPaths {
      var i :| 0 <= i < |wanted| && wanted[i] != "" && host.clean(wanted[i]) == p;
      assert wanted[i] in wanted;
    }
    if q :| AsksToRead(config, layout.workspace, layout.workingDirectory, q) && q != "" && host.clean(q) == p {
      var i :| 0 <= i < |wanted| && wanted[i] == q;
    }
  }

  /** When a configuration is accepted, told from configuration and host. */
  lemma AcceptedIff(host: Host, config: Config)
    ensures LayoutOf(host, config).Some? <==>
            var workspace := host.canonical(config.workspace);
            && workspace.Some? && workspace.value != "/"
            && var directory :=
                 host.canonical(if config.workingDirectory == "" then workspace.value else config.workingDirectory);
            && directory.Some?
            && (forall q :: q in config.extraWrites ==> host.canonical(q).Some? && host.canonical(q).value != "/")
            && GoodList(config.temporaryPaths) && "/" !in Cleaned(config.temporaryPaths, host.clean)
            && GoodList(config.systemPaths)
            && (forall q :: q in SystemPaths(host, config) ==>
                  && host.entry(q) != Unreadable
                  && (host.entry(q).Link? && !WithinAny(host.entry(q).targetPath, SystemPaths(host, config)) ==>
                        host.resolve(q).Some?))
            && GoodList(ExplicitReads(config, workspace.value, directory.value))
            && forall q :: q in Cleaned(ExplicitReads(config, workspace.value, directory.value), host.clean) ==>
                 Readable(host, q)
  {
    hide CleanList, GoodList, Cleaned, WriteFolders, SystemMounts, ReadMounts, ExplicitReads, FirstOfEach, WithinAny,
      Readable;
    var workspace := host.canonical(config.workspace);
    if workspace.Some? && workspace.value != "/" {
      var directory :=
        host.canonical(if config.workingDirectory == "" then workspace.value else config.workingDirectory);
      WriteFoldersAcceptedIff(host, config.extraWrites);
      CleanListIff(config.temporaryPaths, host);
      CleanListIff(config.systemPaths, host);
      var paths := SystemPaths(host, config);
      SystemAcceptedIff(host, paths, paths);
      if directory.Some? {
        var wanted := ExplicitReads(config, workspace.value, directory.value);
        CleanListIff(wanted, host);
        if WriteFolders(host, config.extraWrites).Some? && SystemMounts(host, paths, paths).Some? {
          ReadsAcceptedIff(host, Cleaned(wanted, host.clean), SystemMounts(host, paths, paths).value.visible,
                           WriteRoots(host, config, workspace.value).value);
        }
      }
    }
  }
}
