/** Mailboxes, team signals and waiting: no waiter misses the wake-up meant for it. */
module TeamSignals {

  /** Threads and roots are only compared, so numbers stand for their ids. */
  type Id = nat

  type Message = string

  /** Signal channels are numbered in the order they are made; a closed one stays closed. */
  datatype Board = Board(
    made: nat, closed: set<nat>, signals: map<Id, nat>, mail: map<Id, seq<Message>>, panicked: bool)

  const EMPTY_BOARD := Board(0, {}, map[], map[], false)

  function Mail(b: Board, id: Id): seq<Message> {
    if id in b.mail then b.mail[id] else []
  }

  /** The team's current signal, made on first use. */
  function WithSignal(b: Board, root: Id): Board {
    if root in b.signals then b
    else b.(made := b.made + 1, signals := b.signals[root := b.made])
  }

  /** Close the current signal, if there is one, and put a new one in its place. Closing twice panics. */
  function Notified(b: Board, root: Id): Board {
    var signals := b.signals[root := b.made];
    if root in b.signals then
      b.(made := b.made + 1, signals := signals,
         panicked := b.panicked || b.signals[root] in b.closed,
         closed := b.closed + {b.signals[root]})
    else
      b.(made := b.made + 1, signals := signals)
  }

  function Delivered(b: Board, to: Id, message: Message, root: Id): Board {
    Notified(b.(mail := b.mail[to := Mail(b, to) + [message]]), root)
  }

  function Drained(b: Board, id: Id): Board {
    b.(mail := b.mail - {id})
  }

  /** The manager's part that the team lock guards. */
  class Manager {
    var made: nat
    var closed: set<nat>
    var teamSignals: map<Id, nat>
    var teamMailboxes: map<Id, seq<Message>>
    var panicked: bool

    ghost function View(): Board
      reads this
    {
      Board(made, closed, teamSignals, teamMailboxes, panicked)
    }

    constructor ()
      ensures View() == EMPTY_BOARD
    {
      made, closed, teamSignals, teamMailboxes, panicked := 0, {}, map[], map[], false;
    }

    method CloseSignal(signal: nat)
      modifies this`closed, this`panicked
      ensures closed == old(closed) + {signal} && panicked == (old(panicked) || signal in old(closed))
    {
      if signal in closed {
        panicked := true;
      }
      closed := closed + {signal};
    }

    method TeamSignalLocked(rootId: Id) returns (signal: nat)
      modifies this`teamSignals, this`made
      ensures View() == WithSignal(old(View()), rootId)
      ensures rootId in teamSignals && signal == teamSignals[rootId]
      ensures rootId in old(teamSignals) ==> teamSignals == old(teamSignals) && made == old(made)
      ensures rootId !in old(teamSignals) ==>
                teamSignals == old(teamSignals)[rootId := old(made)] && made == old(made) + 1
    {
      if rootId !in teamSignals {
        teamSignals := teamSignals[rootId := made];
        made := made + 1;
      }
      signal := teamSignals[rootId];
    }

    method NotifyTeamLocked(rootId: Id)
      modifies this`teamSignals, this`made, this`closed, this`panicked
      ensures View() == Notified(old(View()), rootId)
      ensures teamSignals == old(teamSignals)[rootId := old(made)] && made == old(made) + 1
      ensures closed == old(closed) + if rootId in old(teamSignals) then {old(teamSignals)[rootId]} else {}
    {
      if rootId in teamSignals {
        CloseSignal(teamSignals[rootId]);
      }
      teamSignals := teamSignals[rootId := made];
      made := made + 1;
    }

    method Deliver(to: Id, message: Message, rootId: Id)
      modifies this
      ensures View() == Delivered(old(View()), to, message, rootId)
      ensures teamMailboxes == old(teamMailboxes)[
                to := (if to in old(teamMailboxes) then old(teamMailboxes)[to] else []) + [message]]
      ensures teamSignals == old(teamSignals)[rootId := old(made)] && made == old(made) + 1
      ensures rootId in old(teamSignals) ==> old(teamSignals)[rootId] in closed
    {
      var box := if to in teamMailboxes then teamMailboxes[to] else [];
      teamMailboxes := teamMailboxes[to := box + [message]];
      NotifyTeamLocked(rootId);
    }

    method DrainAgentMailbox(id: Id) returns (messages: seq<Message>)
      modifies this`teamMailboxes
      ensures messages == if id in old(teamMailboxes) then old(teamMailboxes)[id] else []
      ensures teamMailboxes == old(teamMailboxes) - {id}
      ensures View() == Drained(old(View()), id) && messages == Mail(old(View()), id)
    {
      messages := if id in teamMailboxes then teamMailboxes[id] else [];
      teamMailboxes := teamMailboxes - {id};
    }

    method ForgetThread(id: Id, rootId: Id)
      modifies this
      ensures View() == Notified(Drained(old(View()), id), rootId)
      ensures teamMailboxes == old(teamMailboxes) - {id}
      ensures teamSignals == old(teamSignals)[rootId := old(made)] && made == old(made) + 1
      ensures rootId in old(teamSignals) ==> old(teamSignals)[rootId] in closed
    {
      teamMailboxes := teamMailboxes - {id};
      NotifyTeamLocked(rootId);
    }
  }

  // ---- The system of waiters and runs ----

  /** A wait that took `signal`, found its mailbox empty, and has found `seen` running so far. */
  datatype Waiter = Waiter(caller: Id, signal: nat, seen: set<Id>)

  /** A run of a thread; once it has marked the thread as not running it owes the team a notify. */
  datatype Run = Run(thread: Id, stopped: bool)

  /** `stale` holds the threads stored as running that no runtime has been loaded for. */
  datatype System = System(
    board: Board,
    sent: map<Id, seq<Message>>, drained: map<Id, seq<Message>>,
    running: set<Id>, stale: set<Id>,
    runs: map<nat, Run>, waiters: map<nat, Waiter>)

  datatype Step =
    | Sample(waiter: nat, caller: Id)
    | See(waiter: nat, agent: Id)
    | Leave(waiter: nat)
    | Drain(caller: Id)
    | Send(from: Id, to: Id, message: Message)
    | Start(thread: Id, run: nat)
    | Stop(run: nat)
    | Finish(run: nat)
    | Notify(team: Id)
    | Forget(thread: Id)
    | Load(thread: Id)

  /** The daemon starts with some threads stored as running. */
  function Init(stale: set<Id>): System {
    System(EMPTY_BOARD, map[], map[], stale, stale, map[], map[])
  }

  function Logged(log: map<Id, seq<Message>>, id: Id): seq<Message> {
    if id in log then log[id] else []
  }

  /** First critical section of a wait: take the signal, look at the mailbox. */
  function Sampled(root: Id -> Id, s: System, waiter: nat, caller: Id): System {
    var board := WithSignal(s.board, root(caller));
    if Mail(board, caller) != [] then s.(board := board)
    else s.(board := board, waiters := s.waiters[waiter := Waiter(caller, board.signals[root(caller)], {})])
  }

  /** One read of a team member's status that finds it running. */
  function Seen(root: Id -> Id, s: System, waiter: nat, agent: Id): System {
    if waiter in s.waiters && agent in s.running && root(agent) == root(s.waiters[waiter].caller) then
      var w := s.waiters[waiter];
      s.(waiters := s.waiters[waiter := w.(seen := w.seen + {agent})])
    else s
  }

  function DrainedFor(s: System, caller: Id): System {
    s.(board := Drained(s.board, caller),
       drained := s.drained[caller := Logged(s.drained, caller) + Mail(s.board, caller)])
  }

  function Sent(root: Id -> Id, s: System, from: Id, to: Id, message: Message): System {
    if root(from) == root(to) then
      s.(board := Delivered(s.board, to, message, root(from)),
         sent := s.sent[to := Logged(s.sent, to) + [message]])
    else s
  }

  function Started(s: System, thread: Id, run: nat): System {
    if thread !in s.stale && run !in s.runs then
      s.(running := s.running + {thread}, runs := s.runs[run := Run(thread, false)])
    else s
  }

  function Stopped(s: System, run: nat): System {
    if run in s.runs then
      s.(running := s.running - {s.runs[run].thread}, runs := s.runs[run := Run(s.runs[run].thread, true)])
    else s
  }

  function Finished(root: Id -> Id, s: System, run: nat): System {
    if run in s.runs && s.runs[run].stopped then
      s.(board := Notified(s.board, root(s.runs[run].thread)), runs := s.runs - {run})
    else s
  }

  function Forgotten(root: Id -> Id, s: System, thread: Id): System {
    s.(board := Notified(Drained(s.board, thread), root(thread)), sent := s.sent - {thread},
      drained := s.drained - {thread})
  }

  function Loaded(s: System, thread: Id): System {
    if thread in s.stale then s.(running := s.running - {thread}, stale := s.stale - {thread}) else s
  }

  /** One critical section, or one read of a thread's status, at a time. A step that is not enabled does nothing. */
  function Apply(root: Id -> Id, s: System, step: Step): System {
    match step
    case Sample(waiter, caller) => Sampled(root, s, waiter, caller)
    case See(waiter, agent) => Seen(root, s, waiter, agent)
    case Leave(waiter) => s.(waiters := s.waiters - {waiter})
    case Drain(caller) => DrainedFor(s, caller)
    case Send(from, to, message) => Sent(root, s, from, to, message)
    case Start(thread, run) => Started(s, thread, run)
    case Stop(run) => Stopped(s, run)
    case Finish(run) => Finished(root, s, run)
    case Notify(team) => s.(board := Notified(s.board, team))
    case Forget(thread) => Forgotten(root, s, thread)
    case Load(thread) => Loaded(s, thread)
  }

  // ---- Signals ----

  ghost predicate SignalsSound(b: Board) {
    && !b.panicked
    && (forall c :: c in b.closed ==> c < b.made)
    && (forall r :: r in b.signals ==> b.signals[r] < b.made && b.signals[r] !in b.closed)
    && (forall r, q :: r in b.signals && q in b.signals && b.signals[r] == b.signals[q] ==> r == q)
  }

  lemma NotifyKeepsSignals(b: Board, root: Id)
    requires SignalsSound(b)
    ensures SignalsSound(Notified(b, root))
  {
  }

  lemma StepKeepsSignals(root: Id -> Id, s: System, step: Step)
    requires SignalsSound(s.board)
    ensures SignalsSound(Apply(root, s, step).board)
  {
    match step
    case Finish(run) =>
      if run in s.runs {
        NotifyKeepsSignals(s.board, root(s.runs[run].thread));
      }
    case Notify(team) => NotifyKeepsSignals(s.board, team);
    case Forget(thread) => NotifyKeepsSignals(Drained(s.board, thread), root(thread));
    case Send(from, to, message) =>
      NotifyKeepsSignals(s.board.(mail := s.board.mail[to := Mail(s.board, to) + [message]]), root(from));
    case _ =>
  }

  // ---- Mailboxes ----

  ghost predicate MailKept(s: System) {
    forall id :: Logged(s.drained, id) + Mail(s.board, id) == Logged(s.sent, id)
  }

  lemma SentKeepsMail(root: Id -> Id, s: System, from: Id, to: Id, message: Message, id: Id)
    requires Logged(s.drained, id) + Mail(s.board, id) == Logged(s.sent, id)
    ensures
      var after := Sent(root, s, from, to, message);
      Logged(after.drained, id) + Mail(after.board, id) == Logged(after.sent, id)
  {
  }

  lemma DrainKeepsMail(s: System, caller: Id, id: Id)
    requires Logged(s.drained, id) + Mail(s.board, id) == Logged(s.sent, id)
    ensures
      var after := DrainedFor(s, caller);
      Logged(after.drained, id) + Mail(after.board, id) == Logged(after.sent, id)
  {
  }

  lemma ForgetKeepsMail(root: Id -> Id, s: System, thread: Id, id: Id)
    requires Logged(s.drained, id) + Mail(s.board, id) == Logged(s.sent, id)
    ensures
      var after := Forgotten(root, s, thread);
      Logged(after.drained, id) + Mail(after.board, id) == Logged(after.sent, id)
  {
  }

  lemma SameMail(s: System, after: System, id: Id)
    requires Logged(s.drained, id) + Mail(s.board, id) == Logged(s.sent, id)
    requires after.drained == s.drained && after.sent == s.sent && after.board.mail == s.board.mail
    ensures Logged(after.drained, id) + Mail(after.board, id) == Logged(after.sent, id)
  {
  }

  lemma MailUntouched(root: Id -> Id, s: System, step: Step)
    requires !step.Send? && !step.Drain? && !step.Forget?
    ensures
      var after := Apply(root, s, step);
      after.drained == s.drained && after.sent == s.sent && after.board.mail == s.board.mail
  {
  }

  lemma StepKeepsMailOf(root: Id -> Id, s: System, step: Step, id: Id)
    requires Logged(s.drained, id) + Mail(s.board, id) == Logged(s.sent, id)
    ensures
      var after := Apply(root, s, step);
      Logged(after.drained, id) + Mail(after.board, id) == Logged(after.sent, id)
  {
    match step
    case Send(from, to, message) => SentKeepsMail(root, s, from, to, message, id);
    case Drain(caller) => DrainKeepsMail(s, caller, id);
    case Forget(thread) => ForgetKeepsMail(root, s, thread, id);
    case _ =>
      MailUntouched(root, s, step);
      SameMail(s, Apply(root, s, step), id);
  }

  lemma StepKeepsMail(root: Id -> Id, s: System, step: Step)
    requires MailKept(s)
    ensures MailKept(Apply(root, s, step))
  {
    var after := Apply(root, s, step);
    forall id
      ensures Logged(after.drained, id) + Mail(after.board, id) == Logged(after.sent, id)
    {
      StepKeepsMailOf(root, s, step, id);
    }
  }

  // ---- Wake-ups ----

  /** Some run of the team has stopped its thread and still has to notify. */
  ghost predicate Owed(root: Id -> Id, s: System, team: Id) {
    exists run :: run in s.runs && s.runs[run].stopped && root(s.runs[run].thread) == team
  }

  /** A waiter on an open signal has nothing to be woken for, unless its team is owed a notify. */
  ghost predicate NotMissed(root: Id -> Id, s: System, w: Waiter) {
    w.signal !in s.board.closed ==>
      (Mail(s.board, w.caller) != [] || exists a :: a in w.seen && a !in s.running) ==> Owed(root, s, root(w.caller))
  }

  ghost predicate NoLostWakeup(root: Id -> Id, s: System) {
    forall k :: k in s.waiters ==> NotMissed(root, s, s.waiters[k])
  }

  /** Why nothing is missed: an open signal is still its team's current one, taken while the mailbox was empty. */
  ghost predicate Watches(root: Id -> Id, s: System, w: Waiter) {
    && w.signal < s.board.made
    && (forall a :: a in w.seen ==> root(a) == root(w.caller))
    && (w.signal !in s.board.closed ==>
          && root(w.caller) in s.board.signals && s.board.signals[root(w.caller)] == w.signal
          && Mail(s.board, w.caller) == [])
  }

  ghost predicate Watching(root: Id -> Id, s: System) {
    forall k :: k in s.waiters ==> Watches(root, s, s.waiters[k])
  }

  ghost predicate Inv(root: Id -> Id, s: System) {
    SignalsSound(s.board) && MailKept(s) && Watching(root, s)
  }

  lemma NotifyKeepsWatches(root: Id -> Id, s: System, after: System, team: Id, w: Waiter)
    requires SignalsSound(s.board) && Watches(root, s, w) && after.board == Notified(s.board, team)
    ensures Watches(root, after, w) && (root(w.caller) == team ==> w.signal in after.board.closed)
  {
  }

  lemma SendKeepsWatches(root: Id -> Id, s: System, after: System, from: Id, to: Id, message: Message, w: Waiter)
    requires SignalsSound(s.board) && Watches(root, s, w) && root(from) == root(to)
    requires after.board == Delivered(s.board, to, message, root(from))
    ensures Watches(root, after, w)
  {
  }

  lemma DrainKeepsWatches(root: Id -> Id, s: System, after: System, caller: Id, w: Waiter)
    requires Watches(root, s, w) && after.board == Drained(s.board, caller)
    ensures Watches(root, after, w)
  {
  }

  lemma WithSignalKeepsWatches(root: Id -> Id, s: System, after: System, team: Id, w: Waiter)
    requires SignalsSound(s.board) && Watches(root, s, w) && after.board == WithSignal(s.board, team)
    ensures Watches(root, after, w)
  {
  }

  lemma NewWaiterWatches(root: Id -> Id, s: System, after: System, caller: Id)
    requires SignalsSound(s.board) && after.board == WithSignal(s.board, root(caller))
             && Mail(after.board, caller) == []
    ensures Watches(root, after, Waiter(caller, after.board.signals[root(caller)], {}))
  {
  }

  lemma SampleWatches(root: Id -> Id, s: System, waiter: nat, caller: Id, k: nat)
    requires SignalsSound(s.board) && k in Sampled(root, s, waiter, caller).waiters
    requires k in s.waiters ==> Watches(root, s, s.waiters[k])
    ensures Watches(root, Sampled(root, s, waiter, caller), Sampled(root, s, waiter, caller).waiters[k])
  {
    var after := Sampled(root, s, waiter, caller);
    if Mail(after.board, caller) == [] && k == waiter {
      NewWaiterWatches(root, s, after, caller);
    } else {
      WithSignalKeepsWatches(root, s, after, root(caller), s.waiters[k]);
    }
  }

  lemma SameBoardWatches(root: Id -> Id, s: System, after: System, w: Waiter)
    requires Watches(root, s, w) && after.board == s.board
    ensures Watches(root, after, w)
  {
  }

  lemma SeenWatches(root: Id -> Id, s: System, waiter: nat, agent: Id, k: nat)
    requires k in s.waiters && Watches(root, s, s.waiters[k])
    ensures Watches(root, Seen(root, s, waiter, agent), Seen(root, s, waiter, agent).waiters[k])
  {
  }

  lemma StepKeepsWatches(root: Id -> Id, s: System, step: Step, k: nat)
    requires SignalsSound(s.board) && Watching(root, s) && k in Apply(root, s, step).waiters
    ensures Watches(root, Apply(root, s, step), Apply(root, s, step).waiters[k])
  {
    assert k in s.waiters ==> Watches(root, s, s.waiters[k]);
    match step
    case Sample(waiter, caller) => SampleWatches(root, s, waiter, caller, k);
    case See(waiter, agent) => SeenWatches(root, s, waiter, agent, k);
    case Drain(caller) => DrainKeepsWatches(root, s, DrainedFor(s, caller), caller, s.waiters[k]);
    case Send(from, to, message) =>
      if root(from) == root(to) {
        SendKeepsWatches(root, s, Sent(root, s, from, to, message), from, to, message, s.waiters[k]);
      }
    case Finish(run) =>
      if run in s.runs && s.runs[run].stopped {
        NotifyKeepsWatches(root, s, Finished(root, s, run), root(s.runs[run].thread), s.waiters[k]);
      }
    case Notify(team) => NotifyKeepsWatches(root, s, s.(board := Notified(s.board, team)), team, s.waiters[k]);
    case Forget(thread) =>
      var emptied := s.(board := Drained(s.board, thread));
      DrainKeepsWatches(root, s, emptied, thread, s.waiters[k]);
      NotifyKeepsWatches(root, emptied, Forgotten(root, s, thread), root(thread), s.waiters[k]);
    case _ => SameBoardWatches(root, s, Apply(root, s, step), s.waiters[k]);
  }

  /** The one way to lose a wake-up: an open waiter has seen this thread running, and nothing is owed. */
  ghost predicate LoadLosesWakeup(root: Id -> Id, s: System, thread: Id) {
    && thread in s.stale
    && !Owed(root, s, root(thread))
    && exists k :: k in s.waiters && thread in s.waiters[k].seen && s.waiters[k].signal !in s.board.closed
  }

  lemma OwedLasts(root: Id -> Id, s: System, step: Step, team: Id)
    requires Owed(root, s, team)
    requires step.Finish? && step.run in s.runs && s.runs[step.run].stopped ==> root(s.runs[step.run].thread) != team
    ensures Owed(root, Apply(root, s, step), team)
  {
    var run :| run in s.runs && s.runs[run].stopped && root(s.runs[run].thread) == team;
    assert run in Apply(root, s, step).runs;
  }

  /** Only stopping a run, or loading a stale thread, takes a thread out of the running ones. */
  lemma LeavesRunning(root: Id -> Id, s: System, step: Step, a: Id)
    requires !step.Load? && a in s.running && a !in Apply(root, s, step).running
    ensures step.Stop? && step.run in s.runs && s.runs[step.run].thread == a
    ensures Owed(root, Apply(root, s, step), root(a))
  {
    assert Apply(root, s, step).runs[step.run].stopped;
  }

  lemma NewlySeen(root: Id -> Id, s: System, step: Step, k: nat, a: Id)
    requires k in Apply(root, s, step).waiters && a in Apply(root, s, step).waiters[k].seen && a !in s.running
    ensures k in s.waiters && a in s.waiters[k].seen && Apply(root, s, step).waiters[k].caller == s.waiters[k].caller
    ensures Apply(root, s, step).waiters[k].signal == s.waiters[k].signal
  {
  }

  lemma ClosedLasts(root: Id -> Id, s: System, step: Step)
    ensures s.board.closed <= Apply(root, s, step).board.closed
  {
  }

  lemma FinishClosesSignal(root: Id -> Id, s: System, run: nat, w: Waiter)
    requires SignalsSound(s.board) && Watches(root, s, w)
    requires run in s.runs && s.runs[run].stopped && root(s.runs[run].thread) == root(w.caller)
    ensures w.signal in Finished(root, s, run).board.closed
  {
  }

  /** An agent that a waiter saw and that no longer runs: the team is owed a notify, or the signal is closed. */
  lemma GoneAgentIsOwed(root: Id -> Id, s: System, step: Step, k: nat, a: Id)
    requires SignalsSound(s.board) && Watching(root, s) && NoLostWakeup(root, s) && !step.Load?
    requires k in Apply(root, s, step).waiters
    requires a in Apply(root, s, step).waiters[k].seen && a !in Apply(root, s, step).running
    requires Apply(root, s, step).waiters[k].signal !in Apply(root, s, step).board.closed
    requires root(a) == root(Apply(root, s, step).waiters[k].caller)
    ensures Owed(root, Apply(root, s, step), root(a))
  {
    if a in s.running {
      LeavesRunning(root, s, step, a);
    } else {
      NewlySeen(root, s, step, k, a);
      ClosedLasts(root, s, step);
      assert NotMissed(root, s, s.waiters[k]) && Watches(root, s, s.waiters[k]);
      if step.Finish? && step.run in s.runs && s.runs[step.run].stopped && root(s.runs[step.run].thread) == root(a) {
        FinishClosesSignal(root, s, step.run, s.waiters[k]);
        assert false;
      }
      OwedLasts(root, s, step, root(a));
    }
  }

  /** Any step but a load keeps a waiter from missing its wake-up. */
  lemma StepKeepsNotMissed(root: Id -> Id, s: System, step: Step, k: nat)
    requires SignalsSound(s.board) && Watching(root, s) && NoLostWakeup(root, s)
    requires !step.Load? && k in Apply(root, s, step).waiters
    ensures NotMissed(root, Apply(root, s, step), Apply(root, s, step).waiters[k])
  {
    var after := Apply(root, s, step);
    var w := after.waiters[k];
    StepKeepsWatches(root, s, step, k);
    if w.signal !in after.board.closed {
      forall a | a in w.seen && a !in after.running
        ensures Owed(root, after, root(w.caller))
      {
        GoneAgentIsOwed(root, s, step, k, a);
      }
    }
  }

  /** Loading a thread stored as running loses a wake-up exactly when an open waiter relies on it. */
  lemma LoadKeepsIff(root: Id -> Id, s: System, thread: Id)
    requires Inv(root, s) && NoLostWakeup(root, s)
    ensures NoLostWakeup(root, Apply(root, s, Load(thread))) <==> !LoadLosesWakeup(root, s, thread)
  {
  }

  // ---- Whole runs ----

  function Exec(root: Id -> Id, stale: set<Id>, steps: seq<Step>): System {
    if steps == [] then Init(stale)
    else Apply(root, Exec(root, stale, steps[..|steps| - 1]), steps[|steps| - 1])
  }

  /** Every load in the run happens while no open waiter relies on the thread. */
  ghost predicate LoadsHarmless(root: Id -> Id, stale: set<Id>, steps: seq<Step>) {
    forall i :: 0 <= i < |steps| && steps[i].Load? ==>
      !LoadLosesWakeup(root, Exec(root, stale, steps[..i]), steps[i].thread)
  }

  lemma {:induction false} Reachable(root: Id -> Id, stale: set<Id>, steps: seq<Step>)
    ensures Inv(root, Exec(root, stale, steps))
  {
    if steps != [] {
      var n := |steps| - 1;
      Reachable(root, stale, steps[..n]);
      var s := Exec(root, stale, steps[..n]);
      StepKeepsSignals(root, s, steps[n]);
      StepKeepsMail(root, s, steps[n]);
      forall k | k in Apply(root, s, steps[n]).waiters
        ensures Watches(root, Apply(root, s, steps[n]), Apply(root, s, steps[n]).waiters[k])
      {
        StepKeepsWatches(root, s, steps[n], k);
      }
    }
  }

  lemma StepLosesNothing(root: Id -> Id, s: System, step: Step)
    requires Inv(root, s) && NoLostWakeup(root, s) && !step.Load?
    ensures NoLostWakeup(root, Apply(root, s, step))
  {
    hide Apply, NotMissed;
    forall k | k in Apply(root, s, step).waiters
      ensures NotMissed(root, Apply(root, s, step), Apply(root, s, step).waiters[k])
    {
      StepKeepsNotMissed(root, s, step, k);
    }
  }

  lemma NothingLostYet(root: Id -> Id, stale: set<Id>)
    ensures NoLostWakeup(root, Init(stale))
  {
  }

  /** Over every interleaving whose loads are harmless, no waiter misses its wake-up. */
  lemma {:induction false} NoWaiterMissesItsWakeup(root: Id -> Id, stale: set<Id>, steps: seq<Step>)
    requires LoadsHarmless(root, stale, steps)
    ensures NoLostWakeup(root, Exec(root, stale, steps))
  {
    hide Apply, Inv, NoLostWakeup, LoadLosesWakeup;
    if steps == [] {
      NothingLostYet(root, stale);
    } else {
      var n := |steps| - 1;
      assert forall i :: 0 <= i < n ==> steps[..n][i] == steps[i] && steps[..n][..i] == steps[..i];
      NoWaiterMissesItsWakeup(root, stale, steps[..n]);
      Reachable(root, stale, steps[..n]);
      var s := Exec(root, stale, steps[..n]);
      if steps[n].Load? {
        LoadKeepsIff(root, s, steps[n].thread);
      } else {
        StepLosesNothing(root, s, steps[n]);
      }
    }
  }

  /** No wake-up is lost in any state that the run passes through. */
  ghost predicate NeverLost(root: Id -> Id, stale: set<Id>, steps: seq<Step>) {
    forall n :: 0 <= n <= |steps| ==> NoLostWakeup(root, Exec(root, stale, steps[..n]))
  }

  lemma OneMoreExec(root: Id -> Id, stale: set<Id>, steps: seq<Step>, n: nat)
    requires n < |steps|
    ensures Exec(root, stale, steps[..n + 1]) == Apply(root, Exec(root, stale, steps[..n]), steps[n])
  {
    assert steps[..n + 1][..n] == steps[..n];
  }

  /** Over whole runs: no wake-up is ever lost exactly if every load is harmless. */
  lemma NeverLostIff(root: Id -> Id, stale: set<Id>, steps: seq<Step>)
    ensures NeverLost(root, stale, steps) <==> LoadsHarmless(root, stale, steps)
  {
    hide Exec, Apply, NoLostWakeup, LoadLosesWakeup, Inv;
    if LoadsHarmless(root, stale, steps) {
      forall n | 0 <= n <= |steps|
        ensures NoLostWakeup(root, Exec(root, stale, steps[..n]))
      {
        assert forall i :: 0 <= i < n ==> steps[..n][i] == steps[i] && steps[..n][..i] == steps[..i];
        NoWaiterMissesItsWakeup(root, stale, steps[..n]);
      }
    }
    if NeverLost(root, stale, steps) {
      forall i | 0 <= i < |steps| && steps[i].Load?
        ensures !LoadLosesWakeup(root, Exec(root, stale, steps[..i]), steps[i].thread)
      {
        Reachable(root, stale, steps[..i]);
        OneMoreExec(root, stale, steps, i);
        assert NoLostWakeup(root, Exec(root, stale, steps[..i]))
          && NoLostWakeup(root, Exec(root, stale, steps[..i + 1]));
        LoadKeepsIff(root, Exec(root, stale, steps[..i]), steps[i].thread);
      }
    }
  }

  /** A daemon that starts with no thread stored as running has no harmful load. */
  lemma {:induction false} CleanStart(root: Id -> Id, steps: seq<Step>)
    ensures Exec(root, {}, steps).stale == {}
    ensures NoLostWakeup(root, Exec(root, {}, steps))
  {
    forall i | 0 <= i <= |steps|
      ensures Exec(root, {}, steps[..i]).stale == {}
    {
      NothingStale(root, steps[..i]);
    }
    assert steps[..|steps|] == steps;
    NoWaiterMissesItsWakeup(root, {}, steps);
  }

  lemma {:induction false} NothingStale(root: Id -> Id, steps: seq<Step>)
    ensures Exec(root, {}, steps).stale == {}
  {
    if steps != [] {
      NothingStale(root, steps[..|steps| - 1]);
    }
  }

  /** Thread 2, stored as running by an earlier daemon, is waited for by 1 and then loaded. */
  const LOSING_STEPS: seq<Step> := [Sample(0, 1), See(0, 2), Load(2)]

  lemma StaleLoadLosesWakeup(root: Id -> Id)
    requires root(1) == root(2)
    ensures !NoLostWakeup(root, Exec(root, {2}, LOSING_STEPS))
  {
    var s1 := Apply(root, Init({2}), Sample(0, 1));
    var s2 := Apply(root, s1, See(0, 2));
    var s3 := Apply(root, s2, Load(2));
    assert LOSING_STEPS[..2][..1][..0] == [] && LOSING_STEPS[..2][..1] == [Sample(0, 1)];
    assert LOSING_STEPS[..2] == [Sample(0, 1), See(0, 2)];
    assert Exec(root, {2}, LOSING_STEPS[..2][..1]) == s1;
    assert Exec(root, {2}, LOSING_STEPS[..2]) == s2;
    assert Exec(root, {2}, LOSING_STEPS) == s3;
    assert !NotMissed(root, s3, s3.waiters[0]);
  }

  /** No signal is ever closed twice, and what a mailbox gave out followed by what it holds is what was sent. */
  lemma SignalsCloseOnce(root: Id -> Id, stale: set<Id>, steps: seq<Step>, id: Id)
    ensures
      var s := Exec(root, stale, steps);
      !s.board.panicked && Logged(s.drained, id) + Mail(s.board, id) == Logged(s.sent, id)
  {
    Reachable(root, stale, steps);
  }
}
