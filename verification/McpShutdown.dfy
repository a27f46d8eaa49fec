/** What a Close can leave running or open, told from the state in which it is called. */
module McpShutdown {
  import opened McpClient
  import opened McpOwnership
  import opened Wrappers

  function RunFrom(c: Client, steps: seq<Step>): Client
    decreases |steps|
  {
    if steps == [] then c else RunFrom(Apply(c, steps[0]), steps[1..])
  }

  lemma {:induction false} ExecThen(names: set<string>, before: seq<Step>, steps: seq<Step>)
    ensures Exec(names, before + steps) == RunFrom(Exec(names, before), steps)
    decreases |steps|
  {
    hide Apply;
    if steps == [] {
      assert before + steps == before;
    } else {
      ExecThen(names, before + [steps[0]], steps[1..]);
      ExecOneMore(names, before, steps[0]);
      assert before + steps == before + [steps[0]] + steps[1..];
    }
  }

  lemma OneStep(c: Client, step: Step)
    ensures RunFrom(c, [step]) == Apply(c, step)
  {
    hide Apply;
    assert [step][1..] == [];
  }

  /** The client after a Close that begins in the state that `before` leads to, and after `later`. */
  function AfterClosing(names: set<string>, before: seq<Step>, later: seq<Step>): Client {
    Exec(names, before + [BeginClose] + later)
  }

  /** The state in which Close is called, and after its first lock section. */
  lemma ClosingFrom(names: set<string>, before: seq<Step>, later: seq<Step>)
    ensures AfterClosing(names, before, later) == RunFrom(Apply(Exec(names, before), BeginClose), later)
  {
    ExecThen(names, before + [BeginClose], later);
    ExecOneMore(names, before, BeginClose);
  }

  // ---- A Close can always run to its end around one call ----

  ghost predicate Closing(c: Client) {
    && c.closed && CountsRefreshes(c)
    && (c.closer.Sweeping? || c.closer.Returned?)
    && (c.closer.Sweeping? ==> c.closer.todo <= c.servers.Keys)
  }

  lemma StepKeepsClosing(c: Client, step: Step)
    requires Closing(c)
    ensures Closing(Apply(c, step))
  {
    StepCounts(c, step);
  }

  predicate Untouched(c: Client, d: Client, k: nat) {
    At(c, k) && At(d, k) && d.ops[k] == c.ops[k]
  }

  /** Steps that end a refresh which Close waits for. */
  function EndingSteps(op: nat): seq<Step> {
    [CheckOpen(op), ReadSession(op), EndRefresh(op, false, {})]
  }

  lemma EndsRefresh(c: Client, op: nat, k: nat)
    requires Closing(c) && op in c.refreshes && At(c, k) && !Counted(c.ops[k])
    ensures
      var d := RunFrom(c, EndingSteps(op));
      Closing(d) && d.closer == c.closer && d.refreshes == c.refreshes - {op} && Untouched(c, d, k)
  {
    var c1 := Apply(c, CheckOpen(op));
    var c2 := Apply(c1, ReadSession(op));
    var c3 := Apply(c2, EndRefresh(op, false, {}));
    assert op != k;
    StepKeepsClosing(c, CheckOpen(op));
    StepKeepsClosing(c1, ReadSession(op));
    StepKeepsClosing(c2, EndRefresh(op, false, {}));
    ThreeSteps(c, CheckOpen(op), ReadSession(op), EndRefresh(op, false, {}));
  }

  lemma ThreeSteps(c: Client, a: Step, b: Step, d: Step)
    ensures RunFrom(c, [a, b, d]) == Apply(Apply(Apply(c, a), b), d)
  {
    hide Apply;
    assert [a, b, d][1..] == [b, d] && [b, d][1..] == [d];
    assert RunFrom(c, [a, b, d]) == RunFrom(Apply(c, a), [b, d]) == RunFrom(Apply(Apply(c, a), b), [d]);
    OneStep(Apply(Apply(c, a), b), d);
  }

  lemma {:induction false} RunThen(c: Client, first: seq<Step>, rest: seq<Step>)
    ensures RunFrom(c, first + rest) == RunFrom(RunFrom(c, first), rest)
    decreases |first|
  {
    hide Apply;
    if first == [] {
      assert first + rest == rest;
    } else {
      assert (first + rest)[1..] == first[1..] + rest;
      RunThen(Apply(c, first[0]), first[1..], rest);
    }
  }

  /** The next steps of Close, or of a refresh it waits for. */
  function CloserSteps(c: Client): (steps: seq<Step>)
    requires c.closer.Sweeping? && c.closer.todo == {} && c.refreshes == {}
  {
    if c.closer.grabbed != [] then [CloseTaken] else [ReturnFromClose]
  }

  /** Close reaches its end whatever call `k` is doing, as long as it does not wait for that call. */
  lemma {:induction false} CloseEndsAround(c: Client, k: nat) returns (steps: seq<Step>)
    requires Closing(c) && At(c, k) && !Counted(c.ops[k])
    ensures RunFrom(c, steps).closer.Returned? && Untouched(c, RunFrom(c, steps), k)
    decreases c.refreshes, if c.closer.Sweeping? then 1 else 0,
              if c.closer.Sweeping? then c.closer.todo else {}, if c.closer.Sweeping? then |c.closer.grabbed| else 0
  {
    if c.closer.Returned? {
      return [];
    }
    var first: seq<Step>;
    if c.refreshes != {} {
      var op :| op in c.refreshes;
      first := EndingSteps(op);
      EndsRefresh(c, op, k);
    } else if c.closer.todo != {} {
      var name :| name in c.closer.todo;
      first := [SweepServer(name)];
      OneStep(c, SweepServer(name));
      StepKeepsClosing(c, SweepServer(name));
    } else {
      first := CloserSteps(c);
      OneStep(c, first[0]);
      StepKeepsClosing(c, first[0]);
    }
    var d := RunFrom(c, first);
    assert Untouched(c, d, k);
    var rest := CloseEndsAround(d, k);
    RunThen(c, first, rest);
    steps := first + rest;
  }

  lemma BeginsClosing(names: set<string>, before: seq<Step>)
    requires !Exec(names, before).closed
    ensures Closing(Apply(Exec(names, before), BeginClose))
    ensures Apply(Exec(names, before), BeginClose).ops == Exec(names, before).ops
  {
    var owner := Reachable(names, before);
    StepCounts(Exec(names, before), BeginClose);
  }

  // ---- Open sessions ----

  predicate AllClosed(c: Client) {
    forall session: nat :: session < c.sessions ==> session in c.closeCalls
  }

  /** A connect that has not handed its session over, or still has to close the one it replaced. */
  predicate ConnectUnderway(op: Op) {
    op.Connecting? || Held(op).Some?
  }

  ghost predicate NoConnectUnderway(c: Client) {
    forall op: nat :: At(c, op) ==> !ConnectUnderway(c.ops[op])
  }

  lemma StepKeepsNoConnect(c: Client, step: Step)
    requires c.closed && NoConnectUnderway(c)
    ensures Apply(c, step).closed && NoConnectUnderway(Apply(c, step))
  {
    var d := Apply(c, step);
    forall op: nat | At(d, op)
      ensures !ConnectUnderway(d.ops[op])
    {
      assert At(c, op) ==> !ConnectUnderway(c.ops[op]);
    }
  }

  lemma {:induction false} NoConnectLater(c: Client, steps: seq<Step>)
    requires c.closed && NoConnectUnderway(c)
    ensures NoConnectUnderway(RunFrom(c, steps))
    decreases |steps|
  {
    if steps != [] {
      StepKeepsNoConnect(c, steps[0]);
      NoConnectLater(Apply(c, steps[0]), steps[1..]);
    }
  }

  /** A connect underway when Close is called can leave its session open when Close has returned. */
  lemma ConnectLeavesSessionOpen(names: set<string>, before: seq<Step>, k: nat) returns (later: seq<Step>)
    requires !Exec(names, before).closed && At(Exec(names, before), k) && ConnectUnderway(Exec(names, before).ops[k])
    ensures AfterClosing(names, before, later).closer.Returned? && !AllClosed(AfterClosing(names, before, later))
  {
    var c := Apply(Exec(names, before), BeginClose);
    BeginsClosing(names, before);
    var first: seq<Step> := if c.ops[k].Connecting? then [Connected(k)] else [];
    if c.ops[k].Connecting? {
      OneStep(c, Connected(k));
      StepKeepsClosing(c, Connected(k));
    }
    var d := RunFrom(c, first);
    var rest := CloseEndsAround(d, k);
    later := first + rest;
    RunThen(c, first, rest);
    ClosingFrom(names, before, later);
    var end := AfterClosing(names, before, later);
    AfterClose(names, before + [BeginClose] + later);
    assert At(end, k) && Held(end.ops[k]).Some?;
  }

  /**
   No session is open once Close has returned, however it goes on, exactly if no connect was underway when it was
   called.
   */
  lemma NothingStaysOpenIff(names: set<string>, before: seq<Step>)
    requires !Exec(names, before).closed
    ensures (forall later :: AfterClosing(names, before, later).closer.Returned? ==>
               AllClosed(AfterClosing(names, before, later)))
            <==> NoConnectUnderway(Exec(names, before))
  {
    var c := Apply(Exec(names, before), BeginClose);
    BeginsClosing(names, before);
    if NoConnectUnderway(Exec(names, before)) {
      forall later | AfterClosing(names, before, later).closer.Returned?
        ensures AllClosed(AfterClosing(names, before, later))
      {
        ClosingFrom(names, before, later);
        NoConnectLater(c, later);
        AfterClose(names, before + [BeginClose] + later);
      }
    } else {
      var k: nat :| At(Exec(names, before), k) && ConnectUnderway(Exec(names, before).ops[k]);
      var later := ConnectLeavesSessionOpen(names, before, k);
    }
  }

  // ---- A repeated Close ----

  /** Nobody has a session: no connect call, no server, and not the effective Close. */
  ghost predicate NobodyHasSession(c: Client) {
    && (forall op: nat :: At(c, op) ==> Held(c.ops[op]).None?)
    && (forall name :: name in c.servers ==> c.servers[name].session.None?)
    && (c.closer.Sweeping? ==> c.closer.grabbed == [])
  }

  /** A repeated Close changes nothing and returns at once; no session is open then exactly if nobody has one. */
  lemma RepeatedCloseIff(names: set<string>, steps: seq<Step>)
    requires Exec(names, steps).closed
    ensures Exec(names, steps + [BeginClose]) == Exec(names, steps)
    ensures AllClosed(Exec(names, steps)) <==> NobodyHasSession(Exec(names, steps))
  {
    var c := Exec(names, steps);
    ExecOneMore(names, steps, BeginClose);
    var owner := Reachable(names, steps);
    if !AllClosed(c) {
      var session: nat :| session < c.sessions && session !in c.closeCalls;
      assert Has(c, owner[session], session);
    }
    if !NobodyHasSession(c) {
      var place, session := SomeoneHas(c);
      OpenWhileHeld(c, owner, place, session);
    }
  }

  lemma SomeoneHas(c: Client) returns (place: Place, session: nat)
    requires !NobodyHasSession(c)
    ensures Has(c, place, session) && !place.Closed?
  {
    if op: nat :| At(c, op) && Held(c.ops[op]).Some? {
      return WithCall(op), Held(c.ops[op]).value;
    }
    if name :| name in c.servers && c.servers[name].session.Some? {
      return InServer(name), c.servers[name].session.value;
    }
    return WithCloser, c.closer.grabbed[0];
  }

  lemma OpenWhileHeld(c: Client, owner: seq<Place>, place: Place, session: nat)
    requires Owned(c, owner) && Has(c, place, session) && !place.Closed?
    ensures !AllClosed(c)
  {
    if session in c.closeCalls {
      var call: nat :| call < |c.closeCalls| && c.closeCalls[call] == session;
      assert Has(c, Closed(call), session);
      assert false;
    }
  }

  /** While the first Close is still sweeping, a repeated one returns although a session is installed and open. */
  lemma RepeatedCloseReturnsEarly(name: string)
    ensures
      var c := Exec({name}, [BeginConnect(name), Connected(0), Install(0)] + [BeginClose]);
      && c.closed && c.closer.Sweeping? && name in c.servers && c.servers[name].session == Some(0) && !AllClosed(c)
      && Exec({name}, [BeginConnect(name), Connected(0), Install(0)] + [BeginClose] + [BeginClose]) == c
  {
    var before := [BeginConnect(name), Connected(0), Install(0)];
    assert [] + before == before;
    ExecThen({name}, [], before);
    ThreeSteps(Fresh({name}), BeginConnect(name), Connected(0), Install(0));
    ExecOneMore({name}, before, BeginClose);
    var c := Exec({name}, before + [BeginClose]);
    assert c.servers[name].session == Some(0) && c.sessions == 1 && c.closeCalls == [];
    assert 0 !in c.closeCalls;
    RepeatedCloseIff({name}, before + [BeginClose]);
  }

  // ---- Running refreshes ----

  ghost predicate NoneRefreshing(c: Client) {
    forall op: nat :: At(c, op) ==> !c.ops[op].Refreshing?
  }

  /** A refresh that Close does not wait for, or will be: a connect's own, or one that a caller asked for. */
  predicate Outlives(servers: map<string, Server>, op: Op) {
    match op
    case Replacing(_, _, _, _) => true
    case Refreshing(_, _, _, scheduled) => !scheduled
    case Checked(name, scheduled) => !scheduled && name in servers && servers[name].session.Some?
    case _ => false
  }

  ghost predicate NoneOutlives(c: Client) {
    forall op: nat :: At(c, op) ==> !Outlives(c.servers, c.ops[op])
  }

  lemma StepKeepsNoneOutliving(c: Client, step: Step)
    requires c.closed && NoneOutlives(c)
    ensures Apply(c, step).closed && NoneOutlives(Apply(c, step))
  {
    var d := Apply(c, step);
    forall op: nat | At(d, op)
      ensures !Outlives(d.servers, d.ops[op])
    {
      OneStaysWithin(c, step, op);
    }
  }

  lemma OneStaysWithin(c: Client, step: Step, op: nat)
    requires c.closed && At(Apply(c, step), op) && (At(c, op) ==> !Outlives(c.servers, c.ops[op]))
    ensures !Outlives(Apply(c, step).servers, Apply(c, step).ops[op])
  {
  }

  lemma {:induction false} NoneOutlivesLater(c: Client, steps: seq<Step>)
    requires c.closed && NoneOutlives(c)
    ensures NoneOutlives(RunFrom(c, steps))
    decreases |steps|
  {
    if steps != [] {
      StepKeepsNoneOutliving(c, steps[0]);
      NoneOutlivesLater(Apply(c, steps[0]), steps[1..]);
    }
  }

  lemma RefreshOutlivesClose(names: set<string>, before: seq<Step>, k: nat) returns (later: seq<Step>)
    requires !Exec(names, before).closed && At(Exec(names, before), k)
    requires Outlives(Exec(names, before).servers, Exec(names, before).ops[k])
    ensures AfterClosing(names, before, later).closer.Returned? && !NoneRefreshing(AfterClosing(names, before, later))
  {
    var c := Apply(Exec(names, before), BeginClose);
    BeginsClosing(names, before);
    var first: seq<Step> := [];
    if c.ops[k].Replacing? {
      first := [ClosePrevious(k)];
      OneStep(c, ClosePrevious(k));
      StepKeepsClosing(c, ClosePrevious(k));
    } else if c.ops[k].Checked? {
      first := [ReadSession(k)];
      OneStep(c, ReadSession(k));
      StepKeepsClosing(c, ReadSession(k));
    }
    var d := RunFrom(c, first);
    var rest := CloseEndsAround(d, k);
    later := first + rest;
    RunThen(c, first, rest);
    ClosingFrom(names, before, later);
    assert AfterClosing(names, before, later).ops[k].Refreshing?;
  }

  /**
   No refresh runs once Close has returned, however it goes on, exactly if none was underway that it does not wait
   for.
   */
  lemma NoRefreshAfterCloseIff(names: set<string>, before: seq<Step>)
    requires !Exec(names, before).closed
    ensures (forall later :: AfterClosing(names, before, later).closer.Returned? ==>
               NoneRefreshing(AfterClosing(names, before, later)))
            <==> NoneOutlives(Exec(names, before))
  {
    var c := Apply(Exec(names, before), BeginClose);
    BeginsClosing(names, before);
    if NoneOutlives(Exec(names, before)) {
      forall later | AfterClosing(names, before, later).closer.Returned?
        ensures NoneRefreshing(AfterClosing(names, before, later))
      {
        ClosingFrom(names, before, later);
        NoneOutlivesLater(c, later);
        AfterClose(names, before + [BeginClose] + later);
      }
    } else {
      var k: nat :| At(Exec(names, before), k) && Outlives(Exec(names, before).servers, Exec(names, before).ops[k]);
      var later := RefreshOutlivesClose(names, before, k);
    }
  }

  /** A connect that has just installed its session: its refresh can run on after Close has returned. */
  lemma ConnectRefreshOutlivesClose(name: string) returns (later: seq<Step>)
    ensures
      var before := [BeginConnect(name), Connected(0), Install(0)];
      && AfterClosing({name}, before, later).closer.Returned?
      && !NoneRefreshing(AfterClosing({name}, before, later))
  {
    var before := [BeginConnect(name), Connected(0), Install(0)];
    assert [] + before == before;
    ExecThen({name}, [], before);
    ThreeSteps(Fresh({name}), BeginConnect(name), Connected(0), Install(0));
    assert Exec({name}, before).ops[0].Replacing?;
    later := RefreshOutlivesClose({name}, before, 0);
  }

  /** Such a refresh changes nothing any more when it ends. */
  lemma LateRefreshChangesNothing(names: set<string>, steps: seq<Step>, op: nat, listed: bool, found: set<string>)
    requires Exec(names, steps).closer.Returned?
    ensures Apply(Exec(names, steps), EndRefresh(op, listed, found)).servers == Exec(names, steps).servers
  {
    AfterClose(names, steps);
  }
}
