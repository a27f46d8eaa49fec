/** The builder of the sandbox's mount program, and what the program makes of each path. */
module Bubblewrap {
  import opened Text
  import opened SandboxPaths
  import opened Wrappers

  /** The mount operations in the order Bubblewrap carries them out; namespace flags are left aside. */
  datatype Mount =
    | RoBind(source: string, at: string)
    | Symlink(target: string, at: string)
    | Proc(at: string)
    | Dev(at: string)
    | Tmpfs(at: string)
    | Directory(at: string)
    | Bind(source: string, at: string)
    | RemountRo(at: string)

  type Program = seq<Mount>

  datatype Entry = Missing | Unreadable | Plain | Link(target: string, targetPath: string)

  /** What the builder asks the file system. */
  datatype Host = Host(
    canonical: string -> Option<string>,
    entry: string -> Entry,
    resolve: string -> Option<string>,
    present: string -> bool,
    clean: string -> string)

  datatype Config = Config(
    workspace: string, workingDirectory: string, command: string,
    extraReads: seq<string>, extraWrites: seq<string>,
    allowNetwork: bool, privateWorkspace: bool,
    systemPaths: seq<string>, resolverPaths: seq<string>, temporaryPaths: seq<string>)

  datatype Built = Ok(program: Program) | Err

  // ---- The builder as functions ----

  /** The folders that stay writable, before repeats are dropped. */
  function WriteFolders(host: Host, paths: seq<string>): Option<seq<string>> {
    if paths == [] then Some([])
    else
      var before, last := WriteFolders(host, paths[..|paths| - 1]), host.canonical(paths[|paths| - 1]);
      if before.None? || last.None? || IsFilesystemRoot(last.value) then None
      else Some(before.value + [last.value])
  }

  /** One system path: absent, mounted, or kept as the link it is. */
  function SystemMount(host: Host, path: string, roots: seq<string>): Option<seq<Mount>> {
    match host.entry(path)
    case Missing => Some([])
    case Unreadable => None
    case Plain => Some([RoBind(path, path)])
    case Link(target, targetPath) =>
      if WithinAny(targetPath, roots) then Some([Symlink(target, path)])
      else if host.resolve(path).None? then None
      else Some([RoBind(host.resolve(path).value, path)])
  }

  datatype Mounted = Mounted(mounts: Program, visible: seq<string>)

  function SystemMounts(host: Host, paths: seq<string>, roots: seq<string>): Option<Mounted> {
    if paths == [] then Some(Mounted([], []))
    else
      var before, path := SystemMounts(host, paths[..|paths| - 1], roots), paths[|paths| - 1];
      if before.None? || SystemMount(host, path, roots).None? then None
      else
        var mounts := SystemMount(host, path, roots).value;
        Some(Mounted(before.value.mounts + mounts, before.value.visible + if mounts == [] then [] else [path]))
  }

  function TemporaryMounts(paths: seq<string>): Program {
    if paths == [] then [] else TemporaryMounts(paths[..|paths| - 1]) + [Tmpfs(paths[|paths| - 1])]
  }

  /** One read path: nothing if it is visible already, else a read-only mount of what it resolves to. */
  function ReadMount(host: Host, path: string, visible: seq<string>, writeRoots: seq<string>): Option<Mounted> {
    if IsFilesystemRoot(path) || host.resolve(path).None? then None
    else
      var resolved := host.resolve(path).value;
      if IsFilesystemRoot(resolved) || !host.present(resolved) then None
      else
        var pathVisible := WithinAny(path, visible) || WithinAny(path, writeRoots);
        var resolvedVisible := WithinAny(resolved, visible) || WithinAny(resolved, writeRoots);
        if pathVisible && resolvedVisible then Some(Mounted([], visible))
        else
          var destination := if pathVisible then resolved else path;
          Some(Mounted([RoBind(resolved, destination)], visible + [destination]))
  }

  function ReadMounts(host: Host, paths: seq<string>, visible: seq<string>, writeRoots: seq<string>): Option<Mounted> {
    if paths == [] then Some(Mounted([], visible))
    else
      var before := ReadMounts(host, paths[..|paths| - 1], visible, writeRoots);
      if before.None? then None
      else
        var last := ReadMount(host, paths[|paths| - 1], before.value.visible, writeRoots);
        if last.None? then None else Some(Mounted(before.value.mounts + last.value.mounts, last.value.visible))
  }

  function Binds(roots: seq<string>): Program {
    if roots == [] then [] else Binds(roots[..|roots| - 1]) + [Bind(roots[|roots| - 1], roots[|roots| - 1])]
  }

  // ---- The builder's loops ----

  method CollectWriteFolders(host: Host, paths: seq<string>) returns (r: Option<seq<string>>)
    ensures r == WriteFolders(host, paths)
  {
    var folders: seq<string> := [];
    for i := 0 to |paths|
      invariant WriteFolders(host, paths[..i]) == Some(folders)
    {
      assert paths[..i + 1][..i] == paths[..i];
      var resolved := host.canonical(paths[i]);
      if resolved.None? || IsFilesystemRoot(resolved.value) {
        FoldersStayRefused(host, paths, i + 1);
        return None;
      }
      folders := folders + [resolved.value];
    }
    assert paths[..|paths|] == paths;
    return Some(folders);
  }

  lemma {:induction false} FoldersStayRefused(host: Host, paths: seq<string>, k: nat)
    requires k <= |paths| && WriteFolders(host, paths[..k]).None?
    ensures WriteFolders(host, paths).None?
  {
    if k == |paths| {
      assert paths[..k] == paths;
    } else {
      assert paths[..|paths| - 1][..k] == paths[..k];
      FoldersStayRefused(host, paths[..|paths| - 1], k);
    }
  }

  method AppendSystemPath(host: Host, args: Program, path: string, roots: seq<string>)
    returns (r: Option<(Program, bool)>)
    ensures r.Some? <==> SystemMount(host, path, roots).Some?
    ensures r.Some? ==>
            r.value == (args + SystemMount(host, path, roots).value, SystemMount(host, path, roots).value != [])
    ensures
      match host.entry(path)
      case Missing => r == Some((args, false))
      case Unreadable => r == None
      case Plain => r == Some((args + [RoBind(path, path)], true))
      case Link(target, targetPath) =>
        if exists i ::
          0 <= i < |roots| && Within(targetPath, roots[i]) then r == Some((args + [Symlink(target, path)], true))
        else if host.resolve(path).None? then r == None
        else r == Some((args + [RoBind(host.resolve(path).value, path)], true))
  {
    match host.entry(path)
    case Missing =>
      assert args + [] == args;
      return Some((args, false));
    case Unreadable =>
      return None;
    case Plain =>
      return Some((args + [RoBind(path, path)], true));
    case Link(target, targetPath) =>
      var inside := PathWithinAny(targetPath, roots);
      if inside {
        return Some((args + [Symlink(target, path)], true));
      }
      var resolved := host.resolve(path);
      if resolved.None? {
        return None;
      }
      return Some((args + [RoBind(resolved.value, path)], true));
  }

  method AppendSystemPaths(host: Host, paths: seq<string>) returns (r: Option<Mounted>)
    ensures r == SystemMounts(host, paths, paths)
  {
    var args: Program := [];
    var visible: seq<string> := [];
    for i := 0 to |paths|
      invariant SystemMounts(host, paths[..i], paths) == Some(Mounted(args, visible))
    {
      assert paths[..i + 1][..i] == paths[..i];
      var one := AppendSystemPath(host, args, paths[i], paths);
      if one.None? {
        SystemStaysRefused(host, paths, paths, i + 1);
        return None;
      }
      args := one.value.0;
      if one.value.1 {
        visible := visible + [paths[i]];
      } else {
        assert visible + [] == visible;
      }
    }
    assert paths[..|paths|] == paths;
    return Some(Mounted(args, visible));
  }

  lemma {:induction false} SystemStaysRefused(host: Host, paths: seq<string>, roots: seq<string>, k: nat)
    requires k <= |paths| && SystemMounts(host, paths[..k], roots).None?
    ensures SystemMounts(host, paths, roots).None?
  {
    if k == |paths| {
      assert paths[..k] == paths;
    } else {
      assert paths[..|paths| - 1][..k] == paths[..k];
      SystemStaysRefused(host, paths[..|paths| - 1], roots, k);
    }
  }

  method AppendTemporaryPaths(paths: seq<string>) returns (args: Program)
    ensures args == TemporaryMounts(paths)
  {
    args := [];
    for i := 0 to |paths|
      invariant args == TemporaryMounts(paths[..i])
    {
      assert paths[..i + 1][..i] == paths[..i];
      args := args + [Tmpfs(paths[i])];
    }
    assert paths[..|paths|] == paths;
  }

  method AppendReadPath(host: Host, path: string, visible: seq<string>, writeRoots: seq<string>)
    returns (r: Option<Mounted>)
    ensures r == ReadMount(host, path, visible, writeRoots)
    ensures r.Some? <==>
            && path != "/" && host.resolve(path).Some?
            && host.resolve(path).value != "/" && host.present(host.resolve(path).value)
    ensures r.Some? ==>
              var resolved := host.resolve(path).value;
              var shown := WithinAny(path, visible + writeRoots);
              && (shown && WithinAny(resolved, visible + writeRoots) ==> r.value == Mounted([], visible))
              && (!shown ==> r.value == Mounted([RoBind(resolved, path)], visible + [path]))
              && (shown && !WithinAny(resolved, visible + writeRoots) ==>
                    r.value == Mounted([RoBind(resolved, resolved)], visible + [resolved]))
  {
    WithinTogether(visible, writeRoots, path);
    if host.resolve(path).Some? {
      WithinTogether(visible, writeRoots, host.resolve(path).value);
    }
    hide WithinAny;
    if IsFilesystemRoot(path) {
      return None;
    }
    var resolved := host.resolve(path);
    if resolved.None? || IsFilesystemRoot(resolved.value) || !host.present(resolved.value) {
      return None;
    }
    var pathVisible := WithinAny(path, visible) || WithinAny(path, writeRoots);
    var resolvedVisible := WithinAny(resolved.value, visible) || WithinAny(resolved.value, writeRoots);
    if pathVisible && resolvedVisible {
      return Some(Mounted([], visible));
    }
    var destination := path;
    if pathVisible {
      destination := resolved.value;
    }
    return Some(Mounted([RoBind(resolved.value, destination)], visible + [destination]));
  }

  method AppendReadPaths(host: Host, paths: seq<string>, visible: seq<string>, writeRoots: seq<string>)
    returns (r: Option<Mounted>)
    ensures r == ReadMounts(host, paths, visible, writeRoots)
  {
    var args: Program, shown := [], visible;
    for i := 0 to |paths|
      invariant ReadMounts(host, paths[..i], visible, writeRoots) == Some(Mounted(args, shown))
    {
      assert paths[..i + 1][..i] == paths[..i];
      var one := AppendReadPath(host, paths[i], shown, writeRoots);
      if one.None? {
        ReadsStayRefused(host, paths, visible, writeRoots, i + 1);
        return None;
      }
      args, shown := args + one.value.mounts, one.value.visible;
    }
    assert paths[..|paths|] == paths;
    return Some(Mounted(args, shown));
  }

  lemma {:induction false} ReadsStayRefused(host: Host, paths: seq<string>, visible: seq<string>,
                                            writeRoots: seq<string>, k: nat)
    requires k <= |paths| && ReadMounts(host, paths[..k], visible, writeRoots).None?
    ensures ReadMounts(host, paths, visible, writeRoots).None?
  {
    if k == |paths| {
      assert paths[..k] == paths;
    } else {
      assert paths[..|paths| - 1][..k] == paths[..k];
      ReadsStayRefused(host, paths[..|paths| - 1], visible, writeRoots, k);
    }
  }

  method AppendBinds(roots: seq<string>) returns (args: Program)
    ensures args == Binds(roots)
  {
    args := [];
    for i := 0 to |roots|
      invariant args == Binds(roots[..i])
    {
      assert roots[..i + 1][..i] == roots[..i];
      args := args + [Bind(roots[i], roots[i])];
    }
    assert roots[..|roots|] == roots;
  }

  // ---- The whole program ----

  function WriteRoots(host: Host, config: Config, workspace: string): Option<seq<string>> {
    var extra := WriteFolders(host, config.extraWrites);
    if extra.None? then None
    else Some(FirstOfEach((if config.privateWorkspace then [] else [workspace]) + extra.value, host.clean))
  }

  function WorkspaceMount(config: Config, workspace: string, temporary: seq<string>): Program {
    if !config.privateWorkspace then []
    else if WithinAny(workspace, temporary) then [Directory(workspace)]
    else [Tmpfs(workspace)]
  }

  /** Everything fresh: the sandbox's own proc, devices and temporary directories. */
  function FreshMounts(config: Config, workspace: string, temporary: seq<string>): Program {
    [Proc("/proc"), Dev("/dev"), Tmpfs("/dev/shm")]
    + TemporaryMounts(temporary)
    + WorkspaceMount(config, workspace, temporary)
  }

  function ExplicitReads(config: Config, workspace: string, workingDirectory: string): seq<string> {
    config.extraReads
    + (if !config.privateWorkspace || workingDirectory != workspace then [workingDirectory] else [])
    + [config.command]
    + if config.allowNetwork then config.resolverPaths else []
  }

  function CleanList(paths: seq<string>, host: Host): Option<seq<string>> {
    if Fault(paths).Some? then None else Some(Cleaned(paths, host.clean))
  }

  datatype Layout = Layout(
    workspace: string, workingDirectory: string, writeRoots: seq<string>, temporary: seq<string>,
    system: Mounted, readPaths: seq<string>, shown: Mounted)

  /** What the configuration comes to, or nothing if any part of it is refused. */
  function LayoutOf(host: Host, config: Config): Option<Layout> {
    var workspace := host.canonical(config.workspace);
    if workspace.None? || IsFilesystemRoot(workspace.value) then None
    else
      var workingDirectory :=
        host.canonical(if config.workingDirectory == "" then workspace.value else config.workingDirectory);
      var writeRoots := WriteRoots(host, config, workspace.value);
      var temporary := CleanList(config.temporaryPaths, host);
      var systemPaths := CleanList(config.systemPaths, host);
      if workingDirectory.None? || writeRoots.None? then None
      else if temporary.None? || "/" in temporary.value || systemPaths.None? then None
      else
        var system := SystemMounts(host, systemPaths.value, systemPaths.value);
        var readPaths := CleanList(ExplicitReads(config, workspace.value, workingDirectory.value), host);
        if system.None? || readPaths.None? then None
        else
          var shown := ReadMounts(host, readPaths.value, system.value.visible, writeRoots.value);
          if shown.None? then None
          else
            Some(Layout(workspace.value, workingDirectory.value, writeRoots.value, temporary.value,
                        system.value, readPaths.value, shown.value))
  }

  function ProgramOf(config: Config, layout: Layout): Program {
    layout.system.mounts + FreshMounts(config, layout.workspace, layout.temporary) + layout.shown.mounts
    + Binds(layout.writeRoots) + [RemountRo("/")]
  }

  method CleanPaths(paths: seq<string>, host: Host) returns (r: Option<seq<string>>)
    ensures r == CleanList(paths, host)
  {
    var listing := CleanAbsolutePaths(paths, host.clean);
    if !listing.Listed? {
      FaultIsRefusal(paths);
      return None;
    }
    FaultIsRefusal(paths);
    return Some(listing.paths);
  }

  lemma {:induction false} FaultIsRefusal(paths: seq<string>)
    ensures Fault(paths).Some? ==> !Fault(paths).value.Listed?
  {
    if paths != [] {
      FaultIsRefusal(paths[..|paths| - 1]);
    }
  }

  method ResolveLayout(host: Host, config: Config) returns (r: Option<Layout>)
    ensures r == LayoutOf(host, config)
  {
    var workspace := host.canonical(config.workspace);
    if workspace.None? || IsFilesystemRoot(workspace.value) {
      return None;
    }
    var workingDirectory := if config.workingDirectory == "" then workspace.value else config.workingDirectory;
    var resolved := host.canonical(workingDirectory);
    if resolved.None? {
      return None;
    }
    var extra := CollectWriteFolders(host, config.extraWrites);
    if extra.None? {
      return None;
    }
    var shared := if config.privateWorkspace then [] else [workspace.value];
    var writeRoots := UniqueOrderedPaths(shared + extra.value, host.clean);
    var temporary := CleanPaths(config.temporaryPaths, host);
    if temporary.None? || "/" in temporary.value {
      return None;
    }
    var systemPaths := CleanPaths(config.systemPaths, host);
    if systemPaths.None? {
      return None;
    }
    var system := AppendSystemPaths(host, systemPaths.value);
    if system.None? {
      return None;
    }
    var readPaths := CleanPaths(ExplicitReads(config, workspace.value, resolved.value), host);
    if readPaths.None? {
      return None;
    }
    var shown := AppendReadPaths(host, readPaths.value, system.value.visible, writeRoots);
    if shown.None? {
      return None;
    }
    return Some(Layout(workspace.value, resolved.value, writeRoots, temporary.value,
                       system.value, readPaths.value, shown.value));
  }

  method BubblewrapArgs(host: Host, config: Config) returns (r: Built)
    ensures r == if LayoutOf(host, config).None? then Err else Ok(ProgramOf(config, LayoutOf(host, config).value))
    ensures r.Ok? ==> r.program != [] && r.program[|r.program| - 1] == RemountRo("/")
  {
    var layout := ResolveLayout(host, config);
    if layout.None? {
      return Err;
    }
    var ownMounts := AppendFreshMounts(config, layout.value.workspace, layout.value.temporary);
    var binds := AppendBinds(layout.value.writeRoots);
    return Ok(layout.value.system.mounts + ownMounts + layout.value.shown.mounts + binds + [RemountRo("/")]);
  }

  method AppendFreshMounts(config: Config, workspace: string, temporary: seq<string>) returns (args: Program)
    ensures args == FreshMounts(config, workspace, temporary)
  {
    args := [Proc("/proc"), Dev("/dev"), Tmpfs("/dev/shm")];
    var temporaryArgs := AppendTemporaryPaths(temporary);
    args := args + temporaryArgs;
    if config.privateWorkspace {
      var parentIsTemporary := PathWithinAny(workspace, temporary);
      args := args + [if parentIsTemporary then Directory(workspace) else Tmpfs(workspace)];
    } else {
      assert args + [] == args;
    }
  }

  // ---- What the program makes of a path ----

  /** An operation puts something new over every path within its mount point; two kinds only adjust. */
  predicate Covers(m: Mount, p: string) {
    !m.Directory? && !m.RemountRo? && Within(p, m.at)
  }

  /** The last operation that covers a path decides what is there. */
  function Winner(program: Program, p: string): Option<Mount> {
    if program == [] then None
    else if Covers(program[|program| - 1], p) then Some(program[|program| - 1])
    else Winner(program[..|program| - 1], p)
  }

  datatype View = HostWritable(path: string) | HostReadOnly(path: string)
                | Elsewhere(target: string) | Fresh | EmptyRoot

  /** What a path has beyond one that contains it, with its slash. */
  function Beyond(p: string, at: string): string {
    if p == at then "" else if at == "/" || !Within(p, at) then p else p[|at|..]
  }

  function Extended(base: string, rest: string): string {
    if rest == "" then base else if base == "/" then rest else base + rest
  }

  /** The host path behind a path under a bind. */
  function Behind(p: string, at: string, source: string): string {
    if source == at then p else Extended(source, Beyond(p, at))
  }

  function ViewOf(program: Program, p: string): View {
    match Winner(program, p)
    case None => EmptyRoot
    case Some(Bind(source, at)) => HostWritable(Behind(p, at, source))
    case Some(RoBind(source, at)) => HostReadOnly(Behind(p, at, source))
    case Some(Symlink(target, _)) => Elsewhere(target)
    case Some(_) => Fresh
  }

  lemma {:induction false} WinnerIsListed(program: Program, p: string)
    ensures Winner(program, p).Some? ==> Winner(program, p).value in program && Covers(Winner(program, p).value, p)
  {
    if program != [] {
      WinnerIsListed(program[..|program| - 1], p);
    }
  }

  lemma {:induction false} WinnerOfConcat(a: Program, b: Program, p: string)
    ensures Winner(a + b, p) == if Winner(b, p).Some? then Winner(b, p) else Winner(a, p)
  {
    if b == [] {
      assert a + b == a;
    } else {
      assert (a + b)[..|a + b| - 1] == a + b[..|b| - 1];
      WinnerOfConcat(a, b[..|b| - 1], p);
    }
  }

  lemma WithinTogether(a: seq<string>, b: seq<string>, p: string)
    ensures WithinAny(p, a + b) <==> WithinAny(p, a) || WithinAny(p, b)
  {
    if i :| 0 <= i < |a| && Within(p, a[i]) {
      assert (a + b)[i] == a[i];
    }
    if i :| 0 <= i < |b| && Within(p, b[i]) {
      assert (a + b)[|a| + i] == b[i];
    }
  }

  lemma WithinOneMore(p: string, roots: seq<string>, root: string)
    ensures WithinAny(p, roots + [root]) <==> WithinAny(p, roots) || Within(p, root)
  {
    WithinTogether(roots, [root], p);
    assert WithinAny(p, [root]) <==> Within(p, root) by {
      assert [root][0] == root;
    }
  }

  lemma WithinAtMostOne(roots: seq<string>, p: string)
    requires |roots| <= 1
    ensures WithinAny(p, roots) <==> roots != [] && Within(p, roots[0])
  {
  }

  lemma WinnerOneMore(program: Program, m: Mount, p: string)
    ensures Winner(program + [m], p) == if Covers(m, p) then Some(m) else Winner(program, p)
  {
  }

  lemma {:induction false} WinnerOfBinds(roots: seq<string>, p: string)
    ensures Winner(Binds(roots), p).Some? <==> WithinAny(p, roots)
    ensures Winner(Binds(roots), p).Some? ==>
              var winner := Winner(Binds(roots), p).value;
              winner.Bind? && winner.source == winner.at && Within(p, winner.at)
  {
    if roots != [] {
      var n := |roots| - 1;
      WinnerOfBinds(roots[..n], p);
      assert roots == roots[..n] + [roots[n]];
      WithinOneMore(p, roots[..n], roots[n]);
      WinnerOneMore(Binds(roots[..n]), Bind(roots[n], roots[n]), p);
    }
  }

  // ---- Writable exactly under the write roots ----

  ghost predicate NoBinds(program: Program) {
    forall i :: 0 <= i < |program| ==> !program[i].Bind?
  }

  lemma {:induction false} SystemHasNoBinds(host: Host, paths: seq<string>, roots: seq<string>)
    requires SystemMounts(host, paths, roots).Some?
    ensures NoBinds(SystemMounts(host, paths, roots).value.mounts)
  {
    if paths != [] {
      SystemHasNoBinds(host, paths[..|paths| - 1], roots);
    }
  }

  lemma {:induction false} TemporaryHasNoBinds(paths: seq<string>)
    ensures NoBinds(TemporaryMounts(paths))
  {
    if paths != [] {
      TemporaryHasNoBinds(paths[..|paths| - 1]);
    }
  }

  lemma {:induction false} ReadsHaveNoBinds(host: Host, paths: seq<string>, visible: seq<string>,
                                            writeRoots: seq<string>)
    requires ReadMounts(host, paths, visible, writeRoots).Some?
    ensures NoBinds(ReadMounts(host, paths, visible, writeRoots).value.mounts)
  {
    if paths != [] {
      ReadsHaveNoBinds(host, paths[..|paths| - 1], visible, writeRoots);
    }
  }

  /** The program in two parts: everything before the write binds, and they. */
  function BeforeBinds(config: Config, layout: Layout): Program {
    layout.system.mounts + FreshMounts(config, layout.workspace, layout.temporary) + layout.shown.mounts
  }

  lemma WinnerOfProgram(config: Config, layout: Layout, p: string)
    ensures Winner(ProgramOf(config, layout), p) ==
            if WithinAny(p, layout.writeRoots) then Winner(Binds(layout.writeRoots), p)
            else Winner(BeforeBinds(config, layout), p)
  {
    var main := BeforeBinds(config, layout) + Binds(layout.writeRoots);
    WinnerOfConcat(main, [RemountRo("/")], p);
    assert Winner([RemountRo("/")], p) == None by {
      assert [RemountRo("/")][..0] == [];
    }
    WinnerOfConcat(BeforeBinds(config, layout), Binds(layout.writeRoots), p);
    WinnerOfBinds(layout.writeRoots, p);
  }

  lemma LayoutParts(host: Host, config: Config)
    requires LayoutOf(host, config).Some?
    ensures
      var layout := LayoutOf(host, config).value;
      && CleanList(config.systemPaths, host).Some?
      && SystemMounts(host, CleanList(config.systemPaths, host).value, CleanList(config.systemPaths, host).value)
         == Some(layout.system)
      && ReadMounts(host, layout.readPaths, layout.system.visible, layout.writeRoots) == Some(layout.shown)
      && WriteRoots(host, config, layout.workspace) == Some(layout.writeRoots)
  {
  }

  lemma FreshHasNoBinds(config: Config, workspace: string, temporary: seq<string>)
    ensures NoBinds(FreshMounts(config, workspace, temporary))
  {
    TemporaryHasNoBinds(temporary);
  }

  lemma LayoutHasNoBinds(host: Host, config: Config)
    requires LayoutOf(host, config).Some?
    ensures NoBinds(BeforeBinds(config, LayoutOf(host, config).value))
  {
    var layout := LayoutOf(host, config).value;
    LayoutParts(host, config);
    var systemPaths := CleanList(config.systemPaths, host).value;
    SystemHasNoBinds(host, systemPaths, systemPaths);
    FreshHasNoBinds(config, layout.workspace, layout.temporary);
    ReadsHaveNoBinds(host, layout.readPaths, layout.system.visible, layout.writeRoots);
    NoBindsTogether(layout.system.mounts, FreshMounts(config, layout.workspace, layout.temporary), layout.shown.mounts);
  }

  lemma NoBindsTogether(a: Program, b: Program, c: Program)
    requires NoBinds(a) && NoBinds(b) && NoBinds(c)
    ensures NoBinds(a + b + c)
  {
  }

  /** A path can be written on the host exactly if it is under a write root, and then it is the same path there. */
  lemma WritableExactlyUnderWriteRoots(host: Host, config: Config, p: string)
    requires LayoutOf(host, config).Some?
    ensures
      var layout := LayoutOf(host, config).value;
      ViewOf(ProgramOf(config, layout), p).HostWritable? <==> WithinAny(p, layout.writeRoots)
    ensures
      var layout := LayoutOf(host, config).value;
      WithinAny(p, layout.writeRoots) ==> ViewOf(ProgramOf(config, layout), p) == HostWritable(p)
  {
    var layout := LayoutOf(host, config).value;
    WinnerOfProgram(config, layout, p);
    WinnerOfBinds(layout.writeRoots, p);
    LayoutHasNoBinds(host, config);
    WinnerIsListed(BeforeBinds(config, layout), p);
    if WithinAny(p, layout.writeRoots) {
      BehindItself(p, Winner(Binds(layout.writeRoots), p).value.at);
    }
  }

  lemma BehindItself(p: string, at: string)
    requires Within(p, at)
    ensures Behind(p, at, at) == p
  {
  }

  /** Seen from the host: a path can be written from inside exactly if it is under a write root. */
  lemma HostPathWritableIff(host: Host, config: Config, h: string)
    requires LayoutOf(host, config).Some?
    ensures
      var layout := LayoutOf(host, config).value;
      (exists p :: ViewOf(ProgramOf(config, layout), p) == HostWritable(h)) <==> WithinAny(h, layout.writeRoots)
  {
    var layout := LayoutOf(host, config).value;
    forall p | ViewOf(ProgramOf(config, layout), p) == HostWritable(h)
      ensures p == h && WithinAny(h, layout.writeRoots)
    {
      WritableExactlyUnderWriteRoots(host, config, p);
    }
    WritableExactlyUnderWriteRoots(host, config, h);
  }

  lemma {:induction false} FoldersAre(host: Host, paths: seq<string>)
    requires WriteFolders(host, paths).Some?
    ensures |WriteFolders(host, paths).value| == |paths|
    ensures forall i :: 0 <= i < |paths| ==> host.canonical(paths[i]) == Some(WriteFolders(host, paths).value[i])
    ensures forall i :: 0 <= i < |paths| ==> !IsFilesystemRoot(WriteFolders(host, paths).value[i])
  {
    if paths != [] {
      FoldersAre(host, paths[..|paths| - 1]);
    }
  }

  predicate WithinFolder(host: Host, p: string, folder: string) {
    host.canonical(folder).Some? && Within(p, host.canonical(folder).value)
  }

  lemma WithinFolders(host: Host, paths: seq<string>, p: string)
    requires WriteFolders(host, paths).Some?
    ensures WithinAny(p, WriteFolders(host, paths).value) <==>
            exists i :: 0 <= i < |paths| && WithinFolder(host, p, paths[i])
  {
    FoldersAre(host, paths);
    if i :| 0 <= i < |paths| && WithinFolder(host, p, paths[i]) {
      assert Within(p, WriteFolders(host, paths).value[i]);
    }
    if i :| 0 <= i < |paths| && Within(p, WriteFolders(host, paths).value[i]) {
      assert WithinFolder(host, p, paths[i]);
    }
  }

  /** Folders that the host names canonically are clean already. */
  ghost predicate CleanHost(host: Host) {
    forall p :: host.canonical(p).Some? ==> host.clean(host.canonical(p).value) == host.canonical(p).value
  }

  /** Under a write root means: under the shared workspace, or under one of the additional folders. */
  lemma WriteRootsMean(host: Host, config: Config, p: string)
    requires CleanHost(host) && LayoutOf(host, config).Some?
    ensures
      var layout := LayoutOf(host, config).value;
      WithinAny(p, layout.writeRoots) <==>
      || (!config.privateWorkspace && Within(p, layout.workspace))
      || exists i :: 0 <= i < |config.extraWrites| && WithinFolder(host, p, config.extraWrites[i])
  {
    var layout := LayoutOf(host, config).value;
    LayoutParts(host, config);
    var folders := WriteFolders(host, config.extraWrites).value;
    var shared: seq<string> := if config.privateWorkspace then [] else [layout.workspace];
    FoldersAre(host, config.extraWrites);
    WithinFirstOfEach(shared + folders, host.clean, p);
    WithinTogether(shared, folders, p);
    WithinFolders(host, config.extraWrites, p);
    assert !config.privateWorkspace && Within(p, layout.workspace) ==> Within(p, shared[0]);
  }

  lemma WithinFirstOfEach(paths: seq<string>, clean: string -> string, p: string)
    requires forall i :: 0 <= i < |paths| ==> clean(paths[i]) == paths[i]
    ensures WithinAny(p, FirstOfEach(paths, clean)) <==> WithinAny(p, paths)
  {
    var first := FirstOfEach(paths, clean);
    FirstOfEachKeeps(paths, clean);
    if i :| 0 <= i < |paths| && Within(p, paths[i]) {
      assert clean(paths[i]) in Elements(first);
    }
    if i :| 0 <= i < |first| && Within(p, first[i]) {
      assert first[i] in Elements(first);
    }
  }

  // ---- Private temporary directories, and what is shown ----

  lemma {:induction false} WinnerOfTemporary(paths: seq<string>, p: string)
    ensures Winner(TemporaryMounts(paths), p).Some? <==> WithinAny(p, paths)
    ensures Winner(TemporaryMounts(paths), p).Some? ==> Winner(TemporaryMounts(paths), p).value.Tmpfs?
  {
    if paths != [] {
      var n := |paths| - 1;
      WinnerOfTemporary(paths[..n], p);
      assert paths == paths[..n] + [paths[n]];
      WithinOneMore(p, paths[..n], paths[n]);
      WinnerOneMore(TemporaryMounts(paths[..n]), Tmpfs(paths[n]), p);
    }
  }

  /** What lies in a temporary directory is the sandbox's own, unless a read or write path shows it. */
  lemma TemporaryIsFresh(config: Config, layout: Layout, p: string)
    requires WithinAny(p, layout.temporary) && !WithinAny(p, layout.writeRoots)
    requires Winner(layout.shown.mounts, p).None?
    ensures ViewOf(ProgramOf(config, layout), p) == Fresh
  {
    WinnerOfProgram(config, layout, p);
    var fixed := [Proc("/proc"), Dev("/dev"), Tmpfs("/dev/shm")];
    var workspace := WorkspaceMount(config, layout.workspace, layout.temporary);
    var own := FreshMounts(config, layout.workspace, layout.temporary);
    WinnerOfConcat(layout.system.mounts + own, layout.shown.mounts, p);
    WinnerOfConcat(layout.system.mounts, own, p);
    WinnerOfConcat(fixed + TemporaryMounts(layout.temporary), workspace, p);
    WinnerOfConcat(fixed, TemporaryMounts(layout.temporary), p);
    WinnerOfTemporary(layout.temporary, p);
    assert workspace != [] ==> workspace[..0] == [];
  }

  predicate Shows(view: View) {
    view.HostWritable? || view.HostReadOnly? || view.Elsewhere?
  }

  lemma SystemMountIs(host: Host, path: string, roots: seq<string>)
    requires SystemMount(host, path, roots).Some?
    ensures
      var mounts := SystemMount(host, path, roots).value;
      || mounts == []
      || (|mounts| == 1 && mounts == [mounts[0]] && mounts[0].at == path && (mounts[0].RoBind? || mounts[0].Symlink?))
  {
  }

  /** What the system mounts cover is what they make visible. */
  lemma {:induction false} SystemShows(host: Host, paths: seq<string>, roots: seq<string>, p: string)
    requires SystemMounts(host, paths, roots).Some?
    ensures
      var system := SystemMounts(host, paths, roots).value;
      && (Winner(system.mounts, p).Some? <==> WithinAny(p, system.visible))
      && (Winner(system.mounts, p).Some? ==>
            Winner(system.mounts, p).value.RoBind? || Winner(system.mounts, p).value.Symlink?)
  {
    if paths != [] {
      var n := |paths| - 1;
      SystemShows(host, paths[..n], roots, p);
      var before := SystemMounts(host, paths[..n], roots).value;
      var mounts := SystemMount(host, paths[n], roots).value;
      SystemMountIs(host, paths[n], roots);
      if mounts == [] {
        assert before.mounts + [] == before.mounts && before.visible + [] == before.visible;
      } else {
        WithinOneMore(p, before.visible, paths[n]);
        WinnerOneMore(before.mounts, mounts[0], p);
      }
    }
  }

  /** What the read mounts cover is what they add to what was visible. */
  lemma {:induction false} ReadsShow(host: Host, paths: seq<string>, visible: seq<string>, writeRoots: seq<string>,
                                     p: string)
    requires ReadMounts(host, paths, visible, writeRoots).Some?
    ensures
      var shown := ReadMounts(host, paths, visible, writeRoots).value;
      && (WithinAny(p, shown.visible) <==> WithinAny(p, visible) || Winner(shown.mounts, p).Some?)
      && (Winner(shown.mounts, p).Some? ==> Winner(shown.mounts, p).value.RoBind?)
  {
    if paths != [] {
      var n := |paths| - 1;
      ReadsShow(host, paths[..n], visible, writeRoots, p);
      var before := ReadMounts(host, paths[..n], visible, writeRoots).value;
      var last := ReadMount(host, paths[n], before.visible, writeRoots).value;
      if last.mounts == [] {
        assert before.mounts + [] == before.mounts;
      } else {
        WithinOneMore(p, before.visible, last.mounts[0].at);
        WinnerOneMore(before.mounts, last.mounts[0], p);
      }
    }
  }

  lemma {:induction false} ReadPathIsVisible(host: Host, paths: seq<string>, visible: seq<string>,
                                             writeRoots: seq<string>, i: nat)
    requires ReadMounts(host, paths, visible, writeRoots).Some? && i < |paths|
    ensures WithinAny(paths[i], ReadMounts(host, paths, visible, writeRoots).value.visible)
            || WithinAny(paths[i], writeRoots)
  {
    var n := |paths| - 1;
    var before := ReadMounts(host, paths[..n], visible, writeRoots).value;
    var last := ReadMount(host, paths[n], before.visible, writeRoots).value;
    if i < n {
      ReadPathIsVisible(host, paths[..n], visible, writeRoots, i);
    }
    if last.mounts != [] {
      WithinOneMore(paths[i], before.visible, last.mounts[0].at);
    }
  }

  lemma {:induction false} TemporaryAreTmpfs(paths: seq<string>)
    ensures forall m :: m in TemporaryMounts(paths) ==> m.Tmpfs?
  {
    if paths != [] {
      TemporaryAreTmpfs(paths[..|paths| - 1]);
    }
  }

  lemma FreshIsFresh(config: Config, workspace: string, temporary: seq<string>, p: string)
    ensures
      var winner := Winner(FreshMounts(config, workspace, temporary), p);
      winner.Some? ==> winner.value.Proc? || winner.value.Dev? || winner.value.Tmpfs?
  {
    WinnerIsListed(FreshMounts(config, workspace, temporary), p);
    TemporaryAreTmpfs(temporary);
  }

  /** The system paths that are there, mounted or kept as links. */
  function SystemRoots(host: Host, paths: seq<string>): seq<string> {
    if paths == [] then []
    else
      var last := paths[|paths| - 1];
      SystemRoots(host, paths[..|paths| - 1]) + if host.entry(last) == Missing then [] else [last]
  }

  lemma {:induction false} SystemRootsAreVisible(host: Host, paths: seq<string>, roots: seq<string>)
    requires SystemMounts(host, paths, roots).Some?
    ensures SystemMounts(host, paths, roots).value.visible == SystemRoots(host, paths)
  {
    if paths != [] {
      SystemRootsAreVisible(host, paths[..|paths| - 1], roots);
    }
  }

  /** Where read paths are mounted: at themselves, or at what they resolve to if they are visible already. */
  function Destinations(host: Host, paths: seq<string>, roots: seq<string>, writeRoots: seq<string>): seq<string> {
    if paths == [] then []
    else
      var before, path := Destinations(host, paths[..|paths| - 1], roots, writeRoots), paths[|paths| - 1];
      var resolved := if host.resolve(path).Some? then host.resolve(path).value else path;
      var pathVisible := WithinAny(path, roots + before) || WithinAny(path, writeRoots);
      var resolvedVisible := WithinAny(resolved, roots + before) || WithinAny(resolved, writeRoots);
      before + if pathVisible && resolvedVisible then [] else if pathVisible then [resolved] else [path]
  }

  lemma {:induction false} ReadsAreAtDestinations(host: Host, paths: seq<string>, roots: seq<string>,
                                                  writeRoots: seq<string>, p: string)
    requires ReadMounts(host, paths, roots, writeRoots).Some?
    ensures
      var shown := ReadMounts(host, paths, roots, writeRoots).value;
      var destinations := Destinations(host, paths, roots, writeRoots);
      shown.visible == roots + destinations && (Winner(shown.mounts, p).Some? <==> WithinAny(p, destinations))
  {
    if paths == [] {
      assert roots + [] == roots;
    } else {
      var n := |paths| - 1;
      ReadsAreAtDestinations(host, paths[..n], roots, writeRoots, p);
      var before := ReadMounts(host, paths[..n], roots, writeRoots).value;
      var last := ReadMount(host, paths[n], before.visible, writeRoots).value;
      OneMoreDestination(before.mounts, Destinations(host, paths[..n], roots, writeRoots), last.mounts, roots, p);
    }
  }

  lemma OneMoreDestination(mounts: Program, destinations: seq<string>, last: Program, roots: seq<string>, p: string)
    requires last == [] || (|last| == 1 && last[0].RoBind?)
    requires Winner(mounts, p).Some? <==> WithinAny(p, destinations)
    ensures
      var added := if last == [] then [] else [last[0].at];
      && (Winner(mounts + last, p).Some? <==> WithinAny(p, destinations + added))
      && (roots + destinations) + added == roots + (destinations + added)
  {
    hide Winner, WithinAny, Within;
    if last == [] {
      assert mounts + last == mounts && destinations + [] == destinations;
      assert (roots + destinations) + [] == roots + destinations;
    } else {
      var m := last[0];
      assert last == [m];
      WinnerOneMore(mounts, m, p);
      WithinOneMore(p, destinations, m.at);
      assert (roots + destinations) + [m.at] == roots + (destinations + [m.at]);
    }
  }

  /** The mount points of the sandbox's own proc, devices, temporary directories and private workspace. */
  function OwnPoints(config: Config, workspace: string, temporary: seq<string>): seq<string> {
    ["/proc", "/dev", "/dev/shm"] + temporary
    + if config.privateWorkspace && !WithinAny(workspace, temporary) then [workspace] else []
  }

  lemma ThreePoints(a: Mount, b: Mount, c: Mount, p: string)
    requires forall m :: m in [a, b, c] ==> !m.Directory? && !m.RemountRo?
    ensures Winner([a, b, c], p).Some? <==> Within(p, a.at) || Within(p, b.at) || Within(p, c.at)
  {
    hide Within;
    assert [a, b, c][..2] == [a, b] && [a, b][..1] == [a] && [a][..0] == [];
    assert a in [a, b, c] && b in [a, b, c] && c in [a, b, c];
    assert Winner([a], p).Some? <==> Within(p, a.at);
    assert Winner([a, b], p).Some? <==> Within(p, a.at) || Within(p, b.at);
  }

  lemma WithinThree(a: string, b: string, c: string, p: string)
    ensures WithinAny(p, [a, b, c]) <==> Within(p, a) || Within(p, b) || Within(p, c)
  {
    hide Within;
    assert [a, b, c][0] == a && [a, b, c][1] == b && [a, b, c][2] == c;
  }

  lemma WorkspacePoint(config: Config, workspace: string, temporary: seq<string>, p: string)
    ensures Winner(WorkspaceMount(config, workspace, temporary), p).Some? <==>
            config.privateWorkspace && !WithinAny(workspace, temporary) && Within(p, workspace)
  {
    var mounts := WorkspaceMount(config, workspace, temporary);
    assert mounts != [] ==> mounts[..0] == [];
  }

  lemma OwnPointsAreCovered(config: Config, workspace: string, temporary: seq<string>, p: string)
    ensures Winner(FreshMounts(config, workspace, temporary), p).Some? <==>
            WithinAny(p, OwnPoints(config, workspace, temporary))
  {
    hide Within, Winner, WithinAny, WorkspaceMount, TemporaryMounts;
    var fixed, points := [Proc("/proc"), Dev("/dev"), Tmpfs("/dev/shm")], ["/proc", "/dev", "/dev/shm"];
    ThreePoints(Proc("/proc"), Dev("/dev"), Tmpfs("/dev/shm"), p);
    WithinThree("/proc", "/dev", "/dev/shm", p);
    WinnerOfTemporary(temporary, p);
    WorkspacePoint(config, workspace, temporary, p);
    WinnerOfConcat(fixed + TemporaryMounts(temporary), WorkspaceMount(config, workspace, temporary), p);
    WinnerOfConcat(fixed, TemporaryMounts(temporary), p);
    WithinTogether(points, temporary, p);
    var last: seq<string> := if config.privateWorkspace && !WithinAny(workspace, temporary) then [workspace] else [];
    WithinTogether(points + temporary, last, p);
    WithinAtMostOne(last, p);
  }

  /** The view of a read path, part by part of the program. */
  lemma ReadPathShownByParts(host: Host, config: Config, i: nat)
    requires LayoutOf(host, config).Some? && i < |LayoutOf(host, config).value.readPaths|
    ensures
      var layout := LayoutOf(host, config).value;
      var p := layout.readPaths[i];
      Shows(ViewOf(ProgramOf(config, layout), p)) <==>
      || WithinAny(p, layout.writeRoots) || Winner(layout.shown.mounts, p).Some?
      || Winner(FreshMounts(config, layout.workspace, layout.temporary), p).None?
    ensures
      var layout := LayoutOf(host, config).value;
      || Shows(ViewOf(ProgramOf(config, layout), layout.readPaths[i]))
      || WithinAny(layout.readPaths[i], layout.system.visible)
  {
    var layout := LayoutOf(host, config).value;
    var p := layout.readPaths[i];
    LayoutParts(host, config);
    var systemPaths := CleanList(config.systemPaths, host).value;
    SystemShows(host, systemPaths, systemPaths, p);
    ReadsShow(host, layout.readPaths, layout.system.visible, layout.writeRoots, p);
    ReadPathIsVisible(host, layout.readPaths, layout.system.visible, layout.writeRoots, i);
    ViewInParts(config, layout, p);
    FreshIsFresh(config, layout.workspace, layout.temporary, p);
    ShowsByWinner(ProgramOf(config, layout), p);
    if !WithinAny(p, layout.writeRoots) && Winner(layout.shown.mounts, p).None? {
      assert WithinAny(p, layout.system.visible);
      assert Winner(layout.system.mounts, p).Some?;
    }
  }

  /** The system roots of a configuration, before anything is built. */
  function RootsOf(host: Host, config: Config): seq<string> {
    SystemRoots(host, Cleaned(config.systemPaths, host.clean))
  }

  /**
   A path given for reading shows the host's content exactly unless it lies under one of the sandbox's own mount
   points and neither under a write root nor where some read path is mounted. Then it lies in a system path, which
   the builder took for visible before the own mounts were made.
   */
  lemma ReadPathShownIff(host: Host, config: Config, i: nat)
    requires LayoutOf(host, config).Some? && i < |LayoutOf(host, config).value.readPaths|
    ensures
      var layout := LayoutOf(host, config).value;
      var p := layout.readPaths[i];
      Shows(ViewOf(ProgramOf(config, layout), p)) <==>
      || !WithinAny(p, OwnPoints(config, layout.workspace, layout.temporary))
      || WithinAny(p, layout.writeRoots)
      || WithinAny(p, Destinations(host, layout.readPaths, RootsOf(host, config), layout.writeRoots))
    ensures
      var layout := LayoutOf(host, config).value;
      !Shows(ViewOf(ProgramOf(config, layout), layout.readPaths[i])) ==>
        WithinAny(layout.readPaths[i], RootsOf(host, config))
  {
    hide ViewOf, Shows, Winner, ReadMounts, SystemMounts, Destinations, FreshMounts, ProgramOf;
    var layout := LayoutOf(host, config).value;
    var p := layout.readPaths[i];
    ReadPathShownByParts(host, config, i);
    LayoutParts(host, config);
    var systemPaths := CleanList(config.systemPaths, host).value;
    SystemRootsAreVisible(host, systemPaths, systemPaths);
    ReadsAreAtDestinations(host, layout.readPaths, layout.system.visible, layout.writeRoots, p);
    OwnPointsAreCovered(config, layout.workspace, layout.temporary, p);
  }

  /** If no read path lies under an own mount point, every one of them is shown. */
  lemma ReadPathsOutsideAreShown(host: Host, config: Config, i: nat)
    requires LayoutOf(host, config).Some? && i < |LayoutOf(host, config).value.readPaths|
    requires
      var layout := LayoutOf(host, config).value;
      !WithinAny(layout.readPaths[i], OwnPoints(config, layout.workspace, layout.temporary))
    ensures
      var layout := LayoutOf(host, config).value;
      Shows(ViewOf(ProgramOf(config, layout), layout.readPaths[i]))
  {
    hide *;
    ReadPathShownIff(host, config, i);
  }

  lemma WithinIsTransitive(p: string, q: string, r: string)
    requires Within(p, q) && Within(q, r) && r != ""
    ensures Within(p, r)
  {
    if r != "/" && p != q && q != r {
      assert |q| > |r| > 0 && q != "/";
      assert p[..|r| + 1] == p[..|q| + 1][..|r| + 1] == (q + "/")[..|r| + 1] == q[..|r| + 1];
    }
  }

  /** A read path that is neither under a system root nor under a write root. */
  predicate Uncovered(q: string, roots: seq<string>, writeRoots: seq<string>) {
    !WithinAny(q, roots) && !WithinAny(q, writeRoots)
  }

  predicate WithinUncovered(p: string, paths: seq<string>, roots: seq<string>, writeRoots: seq<string>) {
    exists j :: 0 <= j < |paths| && Within(p, paths[j]) && Uncovered(paths[j], roots, writeRoots)
  }

  lemma WithinUncoveredOneMore(p: string, paths: seq<string>, roots: seq<string>, writeRoots: seq<string>)
    requires paths != []
    ensures
      var n := |paths| - 1;
      WithinUncovered(p, paths, roots, writeRoots) <==>
      || WithinUncovered(p, paths[..n], roots, writeRoots)
      || (Within(p, paths[n]) && Uncovered(paths[n], roots, writeRoots))
  {
    assert forall j :: 0 <= j < |paths| - 1 ==> paths[..|paths| - 1][j] == paths[j];
  }

  predicate ResolvesToItself(host: Host, path: string) {
    path != "" && host.resolve(path) == Some(path)
  }

  lemma {:induction false} DestinationsAreListed(host: Host, paths: seq<string>, roots: seq<string>,
                                                 writeRoots: seq<string>)
    requires forall j :: 0 <= j < |paths| ==> ResolvesToItself(host, paths[j])
    ensures forall d :: 0 <= d < |Destinations(host, paths, roots, writeRoots)| ==>
            Destinations(host, paths, roots, writeRoots)[d] != ""
  {
    hide WithinAny;
    if paths != [] {
      assert ResolvesToItself(host, paths[|paths| - 1]);
      DestinationsAreListed(host, paths[..|paths| - 1], roots, writeRoots);
    }
  }

  lemma CanonicalStep(host: Host, paths: seq<string>, roots: seq<string>, writeRoots: seq<string>)
    requires paths != [] && ResolvesToItself(host, paths[|paths| - 1])
    ensures
      var n := |paths| - 1;
      var before, q := Destinations(host, paths[..n], roots, writeRoots), paths[n];
      Destinations(host, paths, roots, writeRoots) ==
      before + if WithinAny(q, roots + before) || WithinAny(q, writeRoots) then [] else [q]
  {
    hide WithinAny;
  }

  /**
   Among read paths that resolve to themselves, the uncovered ones are mounted, under one of them if not themselves.
   */
  lemma {:induction false} DestinationsOfCanonical(host: Host, paths: seq<string>, roots: seq<string>,
                                                   writeRoots: seq<string>, p: string)
    requires forall j :: 0 <= j < |paths| ==> ResolvesToItself(host, paths[j])
    ensures WithinAny(p, Destinations(host, paths, roots, writeRoots)) <==> WithinUncovered(p, paths, roots, writeRoots)
  {
    hide Destinations, Within;
    if paths == [] {
      NoDestinations(host, roots, writeRoots);
    } else {
      var n := |paths| - 1;
      var before, q := Destinations(host, paths[..n], roots, writeRoots), paths[n];
      DestinationsOfCanonical(host, paths[..n], roots, writeRoots, p);
      DestinationsAreListed(host, paths[..n], roots, writeRoots);
      CanonicalStep(host, paths, roots, writeRoots);
      OneMoreCanonical(p, q, before, paths, roots, writeRoots);
    }
  }

  lemma NoDestinations(host: Host, roots: seq<string>, writeRoots: seq<string>)
    ensures Destinations(host, [], roots, writeRoots) == []
  {
  }

  lemma OneMoreCanonical(p: string, q: string, before: seq<string>, paths: seq<string>, roots: seq<string>,
                         writeRoots: seq<string>)
    requires paths != [] && q == paths[|paths| - 1]
    requires forall d :: 0 <= d < |before| ==> before[d] != ""
    requires WithinAny(p, before) <==> WithinUncovered(p, paths[..|paths| - 1], roots, writeRoots)
    ensures WithinAny(p, before + if WithinAny(q, roots + before) || WithinAny(q, writeRoots) then [] else [q]) <==>
            WithinUncovered(p, paths, roots, writeRoots)
  {
    hide Within, WithinUncovered;
    WithinUncoveredOneMore(p, paths, roots, writeRoots);
    WithinTogether(roots, before, q);
    WithinOneMore(p, before, q);
    assert before + [] == before;
    if Within(p, q) {
      WithinAnyAbove(p, q, before);
    }
  }

  lemma WithinAnyAbove(p: string, q: string, roots: seq<string>)
    requires Within(p, q) && forall d :: 0 <= d < |roots| ==> roots[d] != ""
    ensures WithinAny(q, roots) ==> WithinAny(p, roots)
  {
    hide Within;
    if d :| 0 <= d < |roots| && Within(q, roots[d]) {
      WithinIsTransitive(p, q, roots[d]);
    }
  }

  /**
   For read paths that resolve to themselves, told from configuration and host alone: such a path is hidden exactly
   if it lies under an own mount point and a system root, under no write root, and under no uncovered read path.
   */
  lemma CanonicalReadPathHiddenIff(host: Host, config: Config, i: nat)
    requires LayoutOf(host, config).Some? && i < |LayoutOf(host, config).value.readPaths|
    requires
      var layout := LayoutOf(host, config).value;
      forall j :: 0 <= j < |layout.readPaths| ==> ResolvesToItself(host, layout.readPaths[j])
    ensures
      var layout := LayoutOf(host, config).value;
      var p, roots := layout.readPaths[i], RootsOf(host, config);
      !Shows(ViewOf(ProgramOf(config, layout), p)) <==>
      && WithinAny(p, OwnPoints(config, layout.workspace, layout.temporary)) && WithinAny(p, roots)
      && !WithinAny(p, layout.writeRoots) && !WithinUncovered(p, layout.readPaths, roots, layout.writeRoots)
  {
    hide ViewOf, Shows, Destinations, ProgramOf, OwnPoints, LayoutOf, SystemRoots, WithinAny;
    var layout := LayoutOf(host, config).value;
    var p, roots := layout.readPaths[i], RootsOf(host, config);
    ReadPathShownIff(host, config, i);
    DestinationsOfCanonical(host, layout.readPaths, roots, layout.writeRoots, p);
    assert Within(p, p);
  }

  lemma ShowsByWinner(program: Program, p: string)
    ensures Shows(ViewOf(program, p)) <==>
            Winner(program, p).Some?
            && (Winner(program, p).value.Bind? || Winner(program, p).value.RoBind? || Winner(program, p).value.Symlink?)
  {
  }

  lemma ViewInParts(config: Config, layout: Layout, p: string)
    ensures
      var own := FreshMounts(config, layout.workspace, layout.temporary);
      Winner(ProgramOf(config, layout), p) ==
      if WithinAny(p, layout.writeRoots) then Winner(Binds(layout.writeRoots), p)
      else if Winner(layout.shown.mounts, p).Some? then Winner(layout.shown.mounts, p)
      else if Winner(own, p).Some? then Winner(own, p)
      else Winner(layout.system.mounts, p)
    ensures WithinAny(p, layout.writeRoots) ==>
              Winner(Binds(layout.writeRoots), p).Some? && Winner(Binds(layout.writeRoots), p).value.Bind?
  {
    var own := FreshMounts(config, layout.workspace, layout.temporary);
    WinnerOfProgram(config, layout, p);
    WinnerOfBinds(layout.writeRoots, p);
    WinnerOfConcat(layout.system.mounts + own, layout.shown.mounts, p);
    WinnerOfConcat(layout.system.mounts, own, p);
  }

  /**
   The host's processes, devices and temporary directories are not seen inside, nor is a private workspace's content:
   unless a write root or a read path shows a path there, it is the sandbox's own.
   */
  lemma OwnMountsAreFresh(config: Config, layout: Layout, p: string)
    requires !WithinAny(p, layout.writeRoots) && Winner(layout.shown.mounts, p).None? && "" !in layout.temporary
    requires || Within(p, "/proc") || Within(p, "/dev") || WithinAny(p, layout.temporary)
             || (config.privateWorkspace && Within(p, layout.workspace))
    ensures ViewOf(ProgramOf(config, layout), p) == Fresh
  {
    hide ProgramOf, FreshMounts, Within;
    var points := OwnPoints(config, layout.workspace, layout.temporary);
    ViewInParts(config, layout, p);
    FreshIsFresh(config, layout.workspace, layout.temporary, p);
    OwnPointsAreCovered(config, layout.workspace, layout.temporary, p);
    assert WithinAny(p, points) by {
      if config.privateWorkspace && Within(p, layout.workspace) && WithinAny(layout.workspace, layout.temporary) {
        WithinAnyAbove(p, layout.workspace, layout.temporary);
      }
      assert points[0] == "/proc" && points[1] == "/dev" && points[3..3 + |layout.temporary|] == layout.temporary;
      assert config.privateWorkspace && !WithinAny(layout.workspace, layout.temporary) ==>
          points[|points| - 1] == layout.workspace;
    }
  }

  // A command in a temporary directory that lies in a system path, which covers it for the builder.

  const PLAIN_HOST := Host(_ => Some("/w"), _ => Plain, p => Some(p), _ => true, p => p)

  const NESTED_CONFIG := Config("/w", "", "/s/t/x", [], [], false, true, ["/s"], [], ["/s/t"])

  lemma NestedParts()
    ensures WriteRoots(PLAIN_HOST, NESTED_CONFIG, "/w") == Some([])
    ensures ExplicitReads(NESTED_CONFIG, "/w", "/w") == ["/s/t/x"]
    ensures CleanList(["/s/t"], PLAIN_HOST) == Some(["/s/t"]) && CleanList(["/s"], PLAIN_HOST) == Some(["/s"])
    ensures CleanList(["/s/t/x"], PLAIN_HOST) == Some(["/s/t/x"])
  {
    var none: seq<string> := [];
    assert none + none == none;
    OneCleaned("/s/t", PLAIN_HOST);
    OneCleaned("/s", PLAIN_HOST);
    OneCleaned("/s/t/x", PLAIN_HOST);
  }

  lemma NestedMounts()
    ensures SystemMounts(PLAIN_HOST, ["/s"], ["/s"]) == Some(Mounted([RoBind("/s", "/s")], ["/s"]))
    ensures ReadMounts(PLAIN_HOST, ["/s/t/x"], ["/s"], []) == Some(Mounted([], ["/s"]))
  {
    hide SystemMounts, ReadMounts;
    OneSystemPath("/s", PLAIN_HOST);
    var p, roots := "/s/t/x", ["/s"];
    assert p[..3] == "/s" + "/" && Within(p, roots[0]);
    OneVisibleRead(p, roots, PLAIN_HOST);
  }

  lemma NestedLayout()
    ensures LayoutOf(PLAIN_HOST, NESTED_CONFIG) ==
            Some(Layout("/w", "/w", [], ["/s/t"],
                        Mounted([RoBind("/s", "/s")], ["/s"]), ["/s/t/x"], Mounted([], ["/s"])))
  {
    hide WriteRoots, ExplicitReads, CleanList, SystemMounts, ReadMounts;
    NestedParts();
    NestedMounts();
  }

  lemma OneSystemPath(p: string, host: Host)
    requires host.entry(p) == Plain
    ensures SystemMounts(host, [p], [p]) == Some(Mounted([RoBind(p, p)], [p]))
  {
    assert [p][..|[p]| - 1] == [];
    assert SystemMounts(host, [], [p]) == Some(Mounted([], []));
    var none: Program, nowhere: seq<string> := [], [];
    assert none + [RoBind(p, p)] == [RoBind(p, p)] && nowhere + [p] == [p];
  }

  lemma OneVisibleRead(p: string, visible: seq<string>, host: Host)
    requires WithinAny(p, visible) && host.resolve(p) == Some(p) && host.present(p) && !IsFilesystemRoot(p)
    ensures ReadMounts(host, [p], visible, []) == Some(Mounted([], visible))
  {
    assert [p][..|[p]| - 1] == [];
    assert ReadMounts(host, [], visible, []) == Some(Mounted([], visible));
    var none: Program := [];
    assert none + none == none;
  }

  lemma OneCleaned(p: string, host: Host)
    requires p != "" && IsAbs(p) && !HasNul(p) && host.clean(p) == p
    ensures CleanList([p], host) == Some([p])
  {
    assert [p][..|[p]| - 1] == [];
    assert Fault([]) == None && Cleaned([], host.clean) == [];
  }

  /** The command lies in the temporary directory, is never mounted, and is not there. */
  lemma NestedReadIsHidden()
    ensures
      var layout := LayoutOf(PLAIN_HOST, NESTED_CONFIG);
      && layout.Some? && layout.value.readPaths == ["/s/t/x"]
      && ViewOf(ProgramOf(NESTED_CONFIG, layout.value), "/s/t/x") == Fresh
  {
    NestedLayout();
    var layout := LayoutOf(PLAIN_HOST, NESTED_CONFIG).value;
    var p := "/s/t/x";
    assert p[..5] == "/s/t" + "/" && Within(p, layout.temporary[0]);
    TemporaryIsFresh(NESTED_CONFIG, layout, p);
  }
}
