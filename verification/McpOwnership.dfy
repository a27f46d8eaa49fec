/** Ownership of MCP sessions over every interleaving of one client's operations. */
module McpOwnership {
  import opened McpClient
  import opened Wrappers

  /** A call in progress, between two of its lock sections. */
  datatype Op =
    | Connecting(name: string)
    | Holding(name: string, session: nat)
    | Refusing(session: nat)
    | Replacing(name: string, session: nat, generation: nat, previous: Option<nat>)
    | Scheduled(name: string)
    | Checked(name: string, scheduled: bool)
    | Refreshing(name: string, session: nat, generation: nat, scheduled: bool)
    | Over

  /**
   The one effective Close: servers still to sweep and sessions it has taken but not closed. A repeated Close finds
   the client closed and returns at once.
   */
  datatype Closer = Idle | Sweeping(todo: set<string>, grabbed: seq<nat>) | Returned

  /** `refreshes` is the wait group, as the set of calls counted in it; `closeCalls` logs every Session.Close. */
  datatype Client = Client(
    closed: bool,
    servers: map<string, Server>,
    ops: seq<Op>,
    closer: Closer,
    refreshes: set<nat>,
    sessions: nat,
    closeCalls: seq<nat>)

  datatype Step =
    | BeginConnect(name: string)
    | Connected(op: nat)
    | ConnectFailed(op: nat)
    | Install(op: nat)
    | CloseRefused(op: nat)
    | ClosePrevious(op: nat)
    | ListChanged(name: string)
    | BeginRefresh(name: string)
    | CheckOpen(op: nat)
    | ReadSession(op: nat)
    | EndRefresh(op: nat, listed: bool, names: set<string>)
    | BeginClose
    | SweepServer(name: string)
    | CloseTaken
    | ReturnFromClose

  function Fresh(names: set<string>): Client {
    Client(false, map n | n in names :: Server(None, 0, NO_TOOLS), [], Idle, {}, 0, [])
  }

  predicate At(c: Client, op: nat) {
    op < |c.ops|
  }

  function Become(c: Client, op: nat, next: Op): Client
    requires At(c, op)
  {
    c.(ops := c.ops[op := next])
  }

  function InstallStep(c: Client, op: nat): Client
    requires At(c, op) && c.ops[op].Holding?
  {
    var Holding(name, session) := c.ops[op];
    if c.closed || name !in c.servers then Become(c, op, Refusing(session))
    else
      var server := WithSession(c.servers[name], session);
      Become(c, op, Replacing(name, session, server.generation, c.servers[name].session))
        .(servers := c.servers[name := server])
  }

  function ClosePreviousStep(c: Client, op: nat): Client
    requires At(c, op) && c.ops[op].Replacing?
  {
    var Replacing(name, session, generation, previous) := c.ops[op];
    var next := Become(c, op, Refreshing(name, session, generation, false));
    if previous.Some? then next.(closeCalls := c.closeCalls + [previous.value]) else next
  }

  /** A refresh that has found the client open reads the session and its generation, or ends. */
  function ReadSessionStep(c: Client, op: nat): Client
    requires At(c, op) && c.ops[op].Checked?
  {
    var Checked(name, scheduled) := c.ops[op];
    if name in c.servers && c.servers[name].session.Some?
    then Become(c, op, Refreshing(name, c.servers[name].session.value, c.servers[name].generation, scheduled))
    else Become(c, op, Over).(refreshes := c.refreshes - {op})
  }

  function EndRefreshStep(c: Client, op: nat, listed: bool, names: set<string>): Client
    requires At(c, op) && c.ops[op].Refreshing?
  {
    var Refreshing(name, session, generation, _) := c.ops[op];
    var next := Become(c, op, Over).(refreshes := c.refreshes - {op});
    if listed && name in c.servers
    then next.(servers := c.servers[name := WithTools(c.servers[name], generation, names, session)])
    else next
  }

  function SweepStep(c: Client, name: string): Client
    requires c.closer.Sweeping? && name in c.closer.todo && name in c.servers
  {
    var server := c.servers[name];
    var taken := if server.session.Some? then [server.session.value] else [];
    c.(servers := c.servers[name := Swept(server)],
       closer := Sweeping(c.closer.todo - {name}, c.closer.grabbed + taken))
  }

  /** One lock section; a step that is not enabled changes nothing. */
  function Apply(c: Client, step: Step): Client {
    match step
    case BeginConnect(name) =>
      if name in c.servers && !c.closed then c.(ops := c.ops + [Connecting(name)]) else c
    case Connected(op) =>
      if At(c, op) && c.ops[op].Connecting?
      then Become(c, op, Holding(c.ops[op].name, c.sessions)).(sessions := c.sessions + 1) else c
    case ConnectFailed(op) =>
      if At(c, op) && c.ops[op].Connecting? then Become(c, op, Over) else c
    case Install(op) =>
      if At(c, op) && c.ops[op].Holding? then InstallStep(c, op) else c
    case CloseRefused(op) =>
      if At(c, op) && c.ops[op].Refusing?
      then Become(c, op, Over).(closeCalls := c.closeCalls + [c.ops[op].session]) else c
    case ClosePrevious(op) =>
      if At(c, op) && c.ops[op].Replacing? then ClosePreviousStep(c, op) else c
    case ListChanged(name) =>
      if c.closed then c else c.(ops := c.ops + [Scheduled(name)], refreshes := c.refreshes + {|c.ops|})
    case BeginRefresh(name) =>
      if c.closed then c else c.(ops := c.ops + [Checked(name, false)])
    case CheckOpen(op) =>
      if !At(c, op) || !c.ops[op].Scheduled? then c
      else if c.closed then Become(c, op, Over).(refreshes := c.refreshes - {op})
      else Become(c, op, Checked(c.ops[op].name, true))
    case ReadSession(op) =>
      if At(c, op) && c.ops[op].Checked? then ReadSessionStep(c, op) else c
    case EndRefresh(op, listed, names) =>
      if At(c, op) && c.ops[op].Refreshing? then EndRefreshStep(c, op, listed, names) else c
    case BeginClose =>
      if c.closed then c else c.(closed := true, closer := Sweeping(c.servers.Keys, []))
    case SweepServer(name) =>
      if c.closer.Sweeping? && name in c.closer.todo && name in c.servers then SweepStep(c, name) else c
    case CloseTaken =>
      if c.closer.Sweeping? && c.closer.todo == {} && c.closer.grabbed != []
      then c.(closer := Sweeping({}, c.closer.grabbed[1..]), closeCalls := c.closeCalls + [c.closer.grabbed[0]]) else c
    case ReturnFromClose =>
      if c.closer == Sweeping({}, []) && c.refreshes == {} then c.(closer := Returned) else c
  }

  function Exec(names: set<string>, steps: seq<Step>): Client {
    if steps == [] then Fresh(names) else Apply(Exec(names, steps[..|steps| - 1]), steps[|steps| - 1])
  }

  /** Everywhere a connected session can be. */
  datatype Place = WithCall(op: nat) | InServer(name: string) | WithCloser | Closed(call: nat)

  function Held(op: Op): Option<nat> {
    match op
    case Holding(_, session) => Some(session)
    case Refusing(session) => Some(session)
    case Replacing(_, _, _, previous) => previous
    case _ => None
  }

  predicate Has(c: Client, place: Place, session: nat) {
    match place
    case WithCall(op) => At(c, op) && Held(c.ops[op]) == Some(session)
    case InServer(name) => name in c.servers && c.servers[name].session == Some(session)
    case WithCloser => c.closer.Sweeping? && session in c.closer.grabbed
    case Closed(call) => call < |c.closeCalls| && c.closeCalls[call] == session
  }

  predicate NoRepeats(s: seq<nat>) {
    forall i, j :: 0 <= i < j < |s| ==> s[i] != s[j]
  }

  /** Every connected session is in exactly one place, `owner[session]`. */
  ghost predicate Owned(c: Client, owner: seq<Place>) {
    && |owner| == c.sessions
    && (forall session: nat :: session < c.sessions ==> Has(c, owner[session], session))
    && (forall place, session: nat :: Has(c, place, session) ==> session < c.sessions && owner[session] == place)
    && (c.closed <==> !c.closer.Idle?)
    && (c.closer.Sweeping? ==> NoRepeats(c.closer.grabbed))
  }

  /** From `c` to `d`, exactly the sessions of `moves` change place, each from the first to the second. */
  ghost predicate Moves(c: Client, d: Client, moves: map<nat, (Place, Place)>) {
    && d.sessions == c.sessions && (d.closed <==> !d.closer.Idle?)
    && (d.closer.Sweeping? ==> NoRepeats(d.closer.grabbed))
    && (forall session :: session in moves ==> Has(c, moves[session].0, session))
    && (forall place, session: nat :: Has(d, place, session) <==>
                                      || (session in moves && place == moves[session].1)
                                      || (Has(c, place, session) && !(session in moves && place == moves[session].0)))
  }

  function Moved(owner: seq<Place>, moves: map<nat, (Place, Place)>): seq<Place> {
    seq(|owner|, i requires 0 <= i < |owner| => if i in moves then moves[i].1 else owner[i])
  }

  lemma MovesKeepOwned(c: Client, d: Client, owner: seq<Place>, moves: map<nat, (Place, Place)>)
    requires Owned(c, owner) && Moves(c, d, moves)
    ensures Owned(d, Moved(owner, moves))
  {
  }

  lemma NewSessionOwned(c: Client, op: nat, owner: seq<Place>)
    requires Owned(c, owner) && At(c, op) && c.ops[op].Connecting?
    ensures Owned(Apply(c, Connected(op)), owner + [WithCall(op)])
  {
    var d := Apply(c, Connected(op));
    assert forall place, session: nat ::
        Has(d, place, session) <==> (session == c.sessions && place == WithCall(op)) || Has(c, place, session);
  }

  /** Which sessions a step moves. */
  function MovesOf(c: Client, step: Step): map<nat, (Place, Place)> {
    var closed := Closed(|c.closeCalls|);
    match step
    case Install(op) =>
      if !At(c, op) || !c.ops[op].Holding? || c.closed || c.ops[op].name !in c.servers then map[]
      else
        var Holding(name, session) := c.ops[op];
        var installed := map[session := (WithCall(op), InServer(name))];
        if c.servers[name].session.None? then installed
        else map[c.servers[name].session.value := (InServer(name), WithCall(op))] + installed
    case CloseRefused(op) =>
      if At(c, op) && c.ops[op].Refusing? then map[c.ops[op].session := (WithCall(op), closed)] else map[]
    case ClosePrevious(op) =>
      if At(c, op) && c.ops[op].Replacing? && c.ops[op].previous.Some?
      then map[c.ops[op].previous.value := (WithCall(op), closed)] else map[]
    case CloseTaken =>
      if c.closer.Sweeping? && c.closer.todo == {} && c.closer.grabbed != []
      then map[c.closer.grabbed[0] := (WithCloser, closed)] else map[]
    case SweepServer(name) =>
      if c.closer.Sweeping? && name in c.closer.todo && name in c.servers && c.servers[name].session.Some?
      then map[c.servers[name].session.value := (InServer(name), WithCloser)] else map[]
    case _ => map[]
  }

  lemma RefusedMoves(c: Client, op: nat, owner: seq<Place>)
    requires Owned(c, owner)
    ensures Moves(c, Apply(c, CloseRefused(op)), MovesOf(c, CloseRefused(op)))
  {
  }

  lemma PreviousMoves(c: Client, op: nat, owner: seq<Place>)
    requires Owned(c, owner)
    ensures Moves(c, Apply(c, ClosePrevious(op)), MovesOf(c, ClosePrevious(op)))
  {
    if At(c, op) && c.ops[op].Replacing? && c.ops[op].previous.Some? {
      assert Has(c, WithCall(op), c.ops[op].previous.value);
    }
  }

  /** A call that holds no session comes, goes on or ends. */
  lemma IdleCallMoves(c: Client, d: Client, owner: seq<Place>)
    requires Owned(c, owner)
    requires d.sessions == c.sessions && d.closed == c.closed && d.closer == c.closer && d.closeCalls == c.closeCalls
    requires d.servers.Keys == c.servers.Keys
    requires forall name :: name in c.servers ==> d.servers[name].session == c.servers[name].session
    requires |c.ops| <= |d.ops|
    requires forall op :: 0 <= op < |d.ops| ==> Held(d.ops[op]) == if op < |c.ops| then Held(c.ops[op]) else None
    ensures Moves(c, d, map[])
  {
  }

  lemma NewCallMoves(c: Client, step: Step, owner: seq<Place>)
    requires Owned(c, owner) && (step.BeginConnect? || step.ListChanged? || step.BeginRefresh?)
    ensures Moves(c, Apply(c, step), map[])
  {
    hide Owned, Moves, Has;
    IdleCallMoves(c, Apply(c, step), owner);
  }

  lemma RunningCallMoves(c: Client, step: Step, owner: seq<Place>)
    requires Owned(c, owner) && (step.ConnectFailed? || step.CheckOpen? || step.ReadSession?)
    ensures Moves(c, Apply(c, step), map[])
  {
    hide Owned, Moves, Has;
    IdleCallMoves(c, Apply(c, step), owner);
  }

  lemma EndingRefreshMoves(c: Client, step: Step, owner: seq<Place>)
    requires Owned(c, owner) && step.EndRefresh?
    ensures Moves(c, Apply(c, step), map[])
  {
    hide Owned, Moves, Has;
    IdleCallMoves(c, Apply(c, step), owner);
  }

  lemma CloserMoves(c: Client, step: Step, owner: seq<Place>)
    requires Owned(c, owner) && (step.BeginClose? || step.ReturnFromClose?)
    ensures Moves(c, Apply(c, step), map[])
  {
  }

  lemma OtherMoves(c: Client, step: Step, owner: seq<Place>)
    requires Owned(c, owner) && !step.Connected? && !step.Install? && !step.CloseRefused? && !step.ClosePrevious?
    requires !step.CloseTaken? && !step.SweepServer?
    ensures Moves(c, Apply(c, step), map[])
  {
    hide *;
    if step.BeginClose? || step.ReturnFromClose? {
      CloserMoves(c, step, owner);
    } else if step.BeginConnect? || step.ListChanged? || step.BeginRefresh? {
      NewCallMoves(c, step, owner);
    } else if step.EndRefresh? {
      EndingRefreshMoves(c, step, owner);
    } else {
      RunningCallMoves(c, step, owner);
    }
  }

  lemma InstallMoves(c: Client, step: Step, owner: seq<Place>)
    requires Owned(c, owner) && step.Install?
    ensures Moves(c, Apply(c, step), MovesOf(c, step))
  {
    if At(c, step.op) && c.ops[step.op].Holding? && !c.closed && c.ops[step.op].name in c.servers {
      var Holding(name, session) := c.ops[step.op];
      assert Has(c, WithCall(step.op), session);
      if c.servers[name].session.Some? {
        assert Has(c, InServer(name), c.servers[name].session.value);
      }
    }
  }

  lemma CloseTakenMoves(c: Client, owner: seq<Place>)
    requires Owned(c, owner)
    ensures Moves(c, Apply(c, CloseTaken), MovesOf(c, CloseTaken))
  {
  }

  lemma SweepMoves(c: Client, name: string, owner: seq<Place>)
    requires Owned(c, owner)
    ensures Moves(c, Apply(c, SweepServer(name)), MovesOf(c, SweepServer(name)))
  {
    var d := Apply(c, SweepServer(name));
    if c.closer.Sweeping? && name in c.closer.todo && name in c.servers {
      var before, after := c.closer.grabbed, d.closer.grabbed;
      if c.servers[name].session.None? {
        assert after == before;
      } else {
        var session := c.servers[name].session.value;
        assert Has(c, InServer(name), session);
        assert !Has(c, WithCloser, session);
        assert after == before + [session];
        assert forall x :: x in after <==> x in before || x == session;
      }
    }
  }

  lemma StepOwned(c: Client, step: Step, owner: seq<Place>) returns (owner': seq<Place>)
    requires Owned(c, owner)
    ensures Owned(Apply(c, step), owner')
  {
    if step.Connected? && At(c, step.op) && c.ops[step.op].Connecting? {
      NewSessionOwned(c, step.op, owner);
      return owner + [WithCall(step.op)];
    }
    if step.CloseRefused? {
      RefusedMoves(c, step.op, owner);
    } else if step.ClosePrevious? {
      PreviousMoves(c, step.op, owner);
    } else if step.Install? {
      InstallMoves(c, step, owner);
    } else if step.CloseTaken? {
      CloseTakenMoves(c, owner);
    } else if step.SweepServer? {
      SweepMoves(c, step.name, owner);
    } else if !step.Connected? {
      OtherMoves(c, step, owner);
    }
    MovesKeepOwned(c, Apply(c, step), owner, MovesOf(c, step));
    return Moved(owner, MovesOf(c, step));
  }

  /** A call that carries a session and a generation has them from the same moment of its server. */
  predicate Tied(servers: map<string, Server>, name: string, session: nat, generation: nat) {
    && name in servers && generation <= servers[name].generation
    && (Accepts(servers[name], generation) ==> servers[name].session == Some(session))
  }

  predicate OpTied(servers: map<string, Server>, op: Op) {
    match op
    case Replacing(name, session, generation, _) => Tied(servers, name, session, generation)
    case Refreshing(name, session, generation, _) => Tied(servers, name, session, generation)
    case _ => true
  }

  /** The table is empty or was listed from the installed session. */
  predicate TableMatches(server: Server) {
    server.session.Some? && server.tools.names != {} ==> server.tools.listedFrom == server.session
  }

  ghost predicate TablesMatch(c: Client) {
    && (forall name :: name in c.servers ==> TableMatches(c.servers[name]))
    && (forall op :: 0 <= op < |c.ops| ==> OpTied(c.servers, c.ops[op]))
  }

  lemma InstallKeepsTables(c: Client, op: nat)
    requires TablesMatch(c) && At(c, op) && c.ops[op].Holding?
    ensures TablesMatch(InstallStep(c, op))
  {
  }

  lemma RefreshKeepsTables(c: Client, op: nat, listed: bool, names: set<string>)
    requires TablesMatch(c) && At(c, op) && c.ops[op].Refreshing?
    ensures TablesMatch(EndRefreshStep(c, op, listed, names))
  {
  }

  lemma SweepKeepsTables(c: Client, name: string)
    requires TablesMatch(c) && c.closer.Sweeping? && name in c.closer.todo && name in c.servers
    ensures TablesMatch(SweepStep(c, name))
  {
  }

  lemma StepKeepsTables(c: Client, step: Step)
    requires TablesMatch(c)
    ensures TablesMatch(Apply(c, step))
  {
    var d := Apply(c, step);
    if step.Install? && At(c, step.op) && c.ops[step.op].Holding? {
      InstallKeepsTables(c, step.op);
    } else if step.EndRefresh? && At(c, step.op) && c.ops[step.op].Refreshing? {
      RefreshKeepsTables(c, step.op, step.listed, step.names);
    } else if step.SweepServer? && d != c {
      SweepKeepsTables(c, step.name);
    } else {
      assert d.servers == c.servers;
      forall o | 0 <= o < |d.ops|
        ensures OpTied(d.servers, d.ops[o])
      {
        if o < |c.ops| {
          assert OpTied(c.servers, c.ops[o]);
        }
      }
    }
  }

  /** A server that Close has dealt with: no session, no visible tools. */
  predicate Shut(server: Server) {
    server.session.None? && AgentTools(server) == {}
  }

  predicate Counted(op: Op) {
    op.Scheduled? || ((op.Checked? || op.Refreshing?) && op.scheduled)
  }

  /** The wait group counts the scheduled refreshes that have not ended. */
  ghost predicate CountsRefreshes(c: Client) {
    forall op: nat :: op in c.refreshes <==> At(c, op) && Counted(c.ops[op])
  }

  ghost predicate ShutsDown(c: Client) {
    && (c.closed <==> !c.closer.Idle?)
    && (c.closer.Sweeping? ==> forall name :: name in c.servers && name !in c.closer.todo ==> Shut(c.servers[name]))
    && (c.closer.Returned? ==> c.refreshes == {} && forall name :: name in c.servers ==> Shut(c.servers[name]))
  }

  lemma StepCounts(c: Client, step: Step)
    requires CountsRefreshes(c)
    ensures CountsRefreshes(Apply(c, step))
  {
  }

  lemma StepShutsDown(c: Client, step: Step)
    requires ShutsDown(c) && CountsRefreshes(c)
    ensures ShutsDown(Apply(c, step))
  {
  }

  /** Over every interleaving: one place per session, tables of the installed session, orderly shutdown. */
  lemma {:induction false} Reachable(names: set<string>, steps: seq<Step>) returns (owner: seq<Place>)
    ensures
      var c := Exec(names, steps);
      Owned(c, owner) && TablesMatch(c) && CountsRefreshes(c) && ShutsDown(c)
  {
    if steps == [] {
      owner := [];
    } else {
      var before, step := steps[..|steps| - 1], steps[|steps| - 1];
      owner := Reachable(names, before);
      owner := StepOwned(Exec(names, before), step, owner);
      StepKeepsTables(Exec(names, before), step);
      StepCounts(Exec(names, before), step);
      StepShutsDown(Exec(names, before), step);
    }
  }

  /** Every connected session is in exactly one place, and Close was called on it at most once. */
  lemma ExactlyOnePlace(names: set<string>, steps: seq<Step>, session: nat)
    requires session < Exec(names, steps).sessions
    ensures exists place :: Has(Exec(names, steps), place, session) &&
                            forall other :: Has(Exec(names, steps), other, session) ==> other == place
    ensures multiset(Exec(names, steps).closeCalls)[session] <= 1
  {
    var c := Exec(names, steps);
    var owner := Reachable(names, steps);
    assert Has(c, owner[session], session);
    forall i, j | 0 <= i < j < |c.closeCalls|
      ensures c.closeCalls[i] != c.closeCalls[j]
    {
      assert Has(c, Closed(i), c.closeCalls[i]) && Has(c, Closed(j), c.closeCalls[j]);
    }
    NoRepeatsCountOnce(c.closeCalls, session);
  }

  lemma {:induction false} NoRepeatsCountOnce(s: seq<nat>, x: nat)
    requires NoRepeats(s)
    ensures multiset(s)[x] <= 1
  {
    if s != [] {
      assert s == [s[0]] + s[1..];
      NoRepeatsCountOnce(s[1..], x);
    }
  }

  /** An installed session's tools are its own. */
  lemma InstalledTools(names: set<string>, steps: seq<Step>, name: string)
    requires name in Exec(names, steps).servers
    ensures TableMatches(Exec(names, steps).servers[name])
  {
    var owner := Reachable(names, steps);
  }

  /**
   After Close has returned: nothing is installed, no tool is visible and no counted refresh is left;
   an open session is held by a connect call, so none is open exactly when no call holds one.
   */
  lemma AfterClose(names: set<string>, steps: seq<Step>)
    requires Exec(names, steps).closer.Returned?
    ensures
      var c := Exec(names, steps);
      && (forall name :: name in c.servers ==> Shut(c.servers[name]))
      && (forall op: nat :: At(c, op) ==> !Counted(c.ops[op]))
      && ((forall session: nat :: session < c.sessions ==> session in c.closeCalls) <==>
          (forall op: nat :: At(c, op) ==> Held(c.ops[op]).None?))
  {
    var c := Exec(names, steps);
    var owner := Reachable(names, steps);
    forall op: nat | At(c, op)
      ensures !Counted(c.ops[op])
    {
      assert op !in c.refreshes;
    }
    if session: nat :| session < c.sessions && session !in c.closeCalls {
      assert Has(c, owner[session], session);
      assert owner[session].WithCall? && Held(c.ops[owner[session].op]).Some?;
    }
    if op: nat :| At(c, op) && Held(c.ops[op]).Some? {
      var session := Held(c.ops[op]).value;
      assert Has(c, WithCall(op), session);
      if session in c.closeCalls {
        var call: nat :| call < |c.closeCalls| && c.closeCalls[call] == session;
        assert Has(c, Closed(call), session);
      }
    }
  }

  /** A connect that nothing overtakes: it opens a session, installs it and closes the one before. */
  lemma ConnectInstalls(c: Client, name: string)
    requires !c.closed && name in c.servers
    ensures
      var op := |c.ops|;
      var d := Apply(Apply(Apply(Apply(c, BeginConnect(name)), Connected(op)), Install(op)), ClosePrevious(op));
      && d.ops == c.ops + [Refreshing(name, c.sessions, c.servers[name].generation + 1, false)]
      && d.servers == c.servers[name := Server(Some(c.sessions), c.servers[name].generation + 1, Table({}, None, true))]
      && d.closeCalls ==
         c.closeCalls + (if c.servers[name].session.Some? then [c.servers[name].session.value] else [])
      && d.sessions == c.sessions + 1 && !d.closed && d.refreshes == c.refreshes
  {
    var op := |c.ops|;
    var c1 := Apply(c, BeginConnect(name));
    var c2 := Apply(c1, Connected(op));
    var c3 := Apply(c2, Install(op));
    assert c1.ops == c.ops + [Connecting(name)] && c1.servers == c.servers;
    assert c2.ops == c.ops + [Holding(name, c.sessions)] && c2.servers == c.servers;
    assert c3.ops[op].Replacing? && c3.servers[name].generation == c.servers[name].generation + 1;
  }

  /** A refresh publishes what it listed exactly if the server still has a session, of the generation it read. */
  lemma RefreshPublishesIff(c: Client, op: nat, names: set<string>)
    requires At(c, op) && c.ops[op].Refreshing? && c.ops[op].name in c.servers
    ensures
      var server := c.servers[c.ops[op].name];
      Apply(c, EndRefresh(op, true, names)).servers[c.ops[op].name] ==
      if server.session.Some? && server.generation == c.ops[op].generation
      then Server(server.session, server.generation, Table(names, Some(c.ops[op].session), true)) else server
    ensures forall other :: other in c.servers && other != c.ops[op].name ==>
              Apply(c, EndRefresh(op, true, names)).servers[other] == c.servers[other]
  {
  }

  lemma ExecOneMore(names: set<string>, steps: seq<Step>, step: Step)
    ensures Exec(names, steps + [step]) == Apply(Exec(names, steps), step)
  {
  }

  /** A client with one server, after a connect call took `ops` and `sessions`. */
  function OneServer(name: string, closed: bool, server: Server, ops: seq<Op>, closer: Closer): Client {
    Client(closed, map[name := server], ops, closer, {}, 1, [])
  }

  lemma ConnectsThenSweeps(name: string)
    ensures
      var start := Server(None, 0, NO_TOOLS);
      && Apply(Apply(Fresh({name}), BeginConnect(name)), Connected(0)) ==
         OneServer(name, false, start, [Holding(name, 0)], Idle)
      && Apply(OneServer(name, false, start, [Holding(name, 0)], Idle), BeginClose) ==
         OneServer(name, true, start, [Holding(name, 0)], Sweeping({name}, []))
      && Apply(OneServer(name, true, start, [Holding(name, 0)], Sweeping({name}, [])), SweepServer(name)) ==
         OneServer(name, true, Swept(start), [Holding(name, 0)], Sweeping({}, []))
  {
    var c := OneServer(name, true, Server(None, 0, NO_TOOLS), [Holding(name, 0)], Sweeping({name}, []));
    assert {name} - {name} == {} && c.closer.grabbed + [] == [];
  }

  /** Close can return while a connect call still holds a session; that call then closes it. */
  lemma CloseOvertakesConnect(name: string)
    ensures
      var c := Exec({name},
        [] + [BeginConnect(name)] + [Connected(0)] + [BeginClose] + [SweepServer(name)] + [ReturnFromClose]);
      && c.closer.Returned? && c.sessions == 1 && c.closeCalls == []
      && Apply(Apply(c, Install(0)), CloseRefused(0)).closeCalls == [0]
  {
    var s1 := [] + [BeginConnect(name)];
    var s2 := s1 + [Connected(0)];
    var s3 := s2 + [BeginClose];
    var s4 := s3 + [SweepServer(name)];
    ExecOneMore({name}, [], BeginConnect(name));
    ExecOneMore({name}, s1, Connected(0));
    ExecOneMore({name}, s2, BeginClose);
    ExecOneMore({name}, s3, SweepServer(name));
    ExecOneMore({name}, s4, ReturnFromClose);
    ConnectsThenSweeps(name);
  }
}
