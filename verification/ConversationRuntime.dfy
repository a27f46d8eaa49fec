/**
 The run state of one conversation: the flags, the cancel function and the two
 queues that client commands and run goroutines share under one mutex. Every
 critical section of that mutex is one step of `Apply`.
 */
module ConversationRuntime {
  import opened Text
  import opened Wrappers

  /** The shared fields. `cancel` names the run whose context it cancels. */
  datatype Runtime = Runtime(
    running: bool,
    finishing: bool,
    cancel: Option<nat>,
    steering: seq<string>,
    followUps: seq<string>,
    steeringMode: string,
    followUpMode: string)

  datatype PromptReply = Rejected | Queued | Started

  /** A prompt as it arrives: `decoded` and `stored` say whether its images could be read and saved. */
  datatype Request = Request(message: string, behavior: string, images: nat, decoded: bool, stored: bool)

  function TakeQueue(queue: seq<string>, mode: string): (seq<string>, seq<string>) {
    if queue == [] then ([], [])
    else if mode == "all" then (queue, [])
    else ([queue[0]], queue[1..])
  }

  lemma TakeQueueSplits(queue: seq<string>, mode: string)
    ensures |TakeQueue(queue, mode).0| == if mode == "all" || queue == [] then |queue| else 1
    ensures TakeQueue(queue, mode).0 + TakeQueue(queue, mode).1 == queue
    ensures TakeQueue(queue, mode).0 == [] <==> queue == []
  {
  }

  predicate Unreadable(p: Request) {
    (Blank(p.message) && p.images == 0) || !p.decoded
  }

  predicate Steers(behavior: string) {
    behavior == "steer"
  }

  predicate Follows(behavior: string) {
    behavior == "followUp" || behavior == "follow_up"
  }

  function PromptReplyOf(rt: Runtime, p: Request): PromptReply {
    if Unreadable(p) || rt.finishing then Rejected
    else if rt.running then
      if p.images != 0 then Rejected
      else if Steers(p.behavior) || Follows(p.behavior) then Queued
      else Rejected
    else if p.stored then Started
    else Rejected
  }

  function PromptEffect(rt: Runtime, p: Request, run: nat): Runtime {
    match PromptReplyOf(rt, p)
    case Rejected => rt
    case Queued =>
      if Steers(p.behavior) then rt.(steering := rt.steering + [p.message])
      else rt.(followUps := rt.followUps + [p.message])
    case Started => rt.(running := true, cancel := Some(run))
  }

  function Settle(rt: Runtime): Runtime {
    var (messages, rest) := TakeQueue(rt.followUps, rt.followUpMode);
    if messages == [] then rt.(followUps := rest, running := false, cancel := None)
    else rt.(followUps := rest)
  }

  function CloseBlock(rt: Runtime): Runtime {
    rt.(finishing := true, running := false, cancel := None)
  }

  /** The fields and critical sections of the source's `threadRuntime`. */
  class ThreadRuntime {
    var running: bool
    var finishing: bool
    var cancel: Option<nat>
    var steering: seq<string>
    var followUps: seq<string>
    var steeringMode: string
    var followUpMode: string

    /** The runs whose contexts were cancelled. */
    ghost var cancelled: set<nat>

    ghost function View(): Runtime
      reads this
    {
      Runtime(running, finishing, cancel, steering, followUps, steeringMode, followUpMode)
    }

    /** The shared state seen with the goroutines that use it. */
    ghost function With(runs: seq<Phase>): System
      reads this
    {
      System(View(), runs, cancelled)
    }

    method Prompt(p: Request, run: nat) returns (reply: PromptReply)
      modifies this
      ensures reply == PromptReplyOf(old(View()), p)
      ensures View() == PromptEffect(old(View()), p, run)
      ensures
        var readable := (p.images > 0 || !Blank(p.message)) && p.decoded;
        && (reply.Started? <==> readable && !old(finishing) && !old(running) && p.stored)
        && (reply.Queued? <==> readable && !old(finishing) && old(running) && p.images == 0
                               && p.behavior in {"steer", "followUp", "follow_up"})
      ensures reply.Rejected? ==> View() == old(View())
      ensures reply.Started? ==> View() == old(View()).(running := true, cancel := Some(run))
      ensures reply.Queued? && p.behavior == "steer" ==>
                View() == old(View()).(steering := old(steering) + [p.message])
      ensures reply.Queued? && p.behavior != "steer" ==>
                View() == old(View()).(followUps := old(followUps) + [p.message])
    {
      if (Blank(p.message) && p.images == 0) || !p.decoded {
        return Rejected;
      }
      if finishing {
        return Rejected;
      }
      if running {
        if p.images != 0 {
          return Rejected;
        }
        if p.behavior == "steer" {
          steering := steering + [p.message];
        } else if p.behavior == "followUp" || p.behavior == "follow_up" {
          followUps := followUps + [p.message];
        } else {
          return Rejected;
        }
        return Queued;
      }
      if !p.stored {
        return Rejected;
      }
      running := true;
      cancel := Some(run);
      return Started;
    }

    method TakeSteering() returns (messages: seq<string>)
      modifies this`steering
      ensures (messages, steering) == TakeQueue(old(steering), steeringMode)
      ensures if steeringMode == "all" || old(steering) == [] then messages == old(steering) && steering == []
              else messages == [old(steering)[0]] && steering == old(steering)[1..]
    {
      if |steering| == 0 {
        return [];
      }
      if steeringMode == "all" {
        messages := steering;
        steering := [];
        return;
      }
      messages := [steering[0]];
      steering := steering[1..];
    }

    method TakeFollowUpOrSettle() returns (next: string)
      modifies this
      ensures View() == Settle(old(View()))
      ensures next == Join(TakeQueue(old(followUps), followUpMode).0, "\n\n")
      ensures old(followUps) == [] ==> next == "" && View() == old(View()).(running := false, cancel := None)
      ensures old(followUps) != [] && followUpMode != "all" ==>
                next == old(followUps)[0] && View() == old(View()).(followUps := old(followUps)[1..])
      ensures old(followUps) != [] && followUpMode == "all" ==>
                next == Join(old(followUps), "\n\n") && View() == old(View()).(followUps := [])
    {
      var messages := [];
      if |followUps| != 0 {
        if followUpMode == "all" {
          messages := followUps;
          followUps := [];
        } else {
          messages := [followUps[0]];
          followUps := followUps[1..];
        }
      }
      if |messages| == 0 {
        running := false;
        cancel := None;
      }
      next := Join(messages, "\n\n");
    }

    method ClearQueues()
      modifies this`steering, this`followUps
      ensures View() == old(View()).(steering := [], followUps := [])
    {
      steering := [];
      followUps := [];
    }

    method Close()
      modifies this
      ensures View() == CloseBlock(old(View()))
      ensures View() == old(View()).(finishing := true, running := false, cancel := None)
    {
      finishing := true;
      running := false;
      cancel := None;
    }

    /** Cancels the context of every live run and of no other, as long as there is one run at a time. */
    method Abort() returns (aborted: bool)
      modifies this`cancelled
      ensures forall runs, fused :: With(runs) == Apply(old(With(runs)), Step.Abort, fused)
      ensures forall runs :: Exclusive(old(With(runs))) ==> cancelled == old(cancelled) + LiveRuns(runs)
      ensures forall runs :: Exclusive(old(With(runs))) ==> (aborted <==> LiveRuns(runs) != {})
    {
      forall runs: seq<Phase> | Exclusive(With(runs))
        ensures LiveRuns(runs) == if cancel.Some? then {cancel.value} else {}
      {
        LiveRunIsCancelled(With(runs));
      }
      if cancel.None? {
        return false;
      }
      cancelled := cancelled + {cancel.value};
      return true;
    }
  }

  /** Where a run goroutine is: `Exiting(settled)` lies between leaving the loop and the closing block. */
  datatype Phase = Looping | Exiting(settled: bool) | Reporting | Done

  /** Runs are numbered by the order in which prompts started them. */
  datatype System = System(rt: Runtime, runs: seq<Phase>, cancelled: set<nat>)

  datatype Step =
    | Prompt(request: Request)
    | TakeSteering(run: nat)
    | TakeFollowUp(run: nat)
    | FailRun(run: nat)
    | FailPersist(run: nat)
    | CloseRun(run: nat)
    | FinishRun(run: nat)
    | Abort
    | SetModes(steering: string, followUp: string)

  const INITIAL := System(Runtime(false, false, None, [], [], "", ""), [], {})

  predicate At(s: System, run: nat, phase: Phase) {
    run < |s.runs| && s.runs[run] == phase
  }

  predicate IsExiting(s: System, run: nat) {
    run < |s.runs| && s.runs[run].Exiting?
  }

  function MoveTo(s: System, rt: Runtime, run: nat, phase: Phase): System
    requires run < |s.runs|
  {
    s.(rt := rt, runs := s.runs[run := phase])
  }

  /** The loop condition of `run`: it goes on while the joined messages are not empty. */
  function FollowUpEffect(s: System, run: nat, fused: bool): System
    requires run < |s.runs|
  {
    var (messages, _) := TakeQueue(s.rt.followUps, s.rt.followUpMode);
    if Join(messages, "\n\n") != "" then s.(rt := Settle(s.rt))
    else if fused then MoveTo(s, CloseBlock(Settle(s.rt)), run, Reporting)
    else MoveTo(s, Settle(s.rt), run, Exiting(messages == []))
  }

  /** One critical section. `fused` makes the settle decision and the closing block a single one. */
  function Apply(s: System, step: Step, fused: bool): System {
    match step
    case Prompt(p) =>
      var s' := s.(rt := PromptEffect(s.rt, p, |s.runs|));
      if PromptReplyOf(s.rt, p).Started? then s'.(runs := s.runs + [Looping]) else s'
    case TakeSteering(r) =>
      if At(s, r, Looping) then s.(rt := s.rt.(steering := TakeQueue(s.rt.steering, s.rt.steeringMode).1)) else s
    case TakeFollowUp(r) =>
      if At(s, r, Looping) then FollowUpEffect(s, r, fused) else s
    case FailRun(r) =>
      if At(s, r, Looping) then MoveTo(s, s.rt.(steering := [], followUps := []), r, Exiting(false)) else s
    case FailPersist(r) =>
      if At(s, r, Looping) then MoveTo(s, s.rt, r, Exiting(false)) else s
    case CloseRun(r) =>
      if IsExiting(s, r) then MoveTo(s, CloseBlock(s.rt), r, Reporting) else s
    case FinishRun(r) =>
      if At(s, r, Reporting) then MoveTo(s, s.rt.(finishing := false), r, Done) else s
    case Abort =>
      if s.rt.cancel.Some? then s.(cancelled := s.cancelled + {s.rt.cancel.value}) else s
    case SetModes(steering, followUp) =>
      if s.rt.running || s.rt.finishing then s
      else s.(rt := s.rt.(steeringMode := steering, followUpMode := followUp))
  }

  function Exec(steps: seq<Step>, fused: bool): System {
    if steps == [] then INITIAL
    else Apply(Exec(steps[..|steps| - 1], fused), steps[|steps| - 1], fused)
  }

  predicate Live(phase: Phase) {
    phase == Looping || phase == Exiting(false)
  }

  predicate OneRun(s: System) {
    forall i, j :: 0 <= i < |s.runs| && 0 <= j < |s.runs| && s.runs[i] != Done && s.runs[j] != Done ==> i == j
  }

  /** `running` holds exactly when there is a cancel function, which belongs to the one live run. */
  predicate FlagsAgree(s: System) {
    && (s.rt.running <==> s.rt.cancel.Some?)
    && (s.rt.cancel.Some? ==> s.rt.cancel.value < |s.runs| && Live(s.runs[s.rt.cancel.value]))
    && (forall i :: 0 <= i < |s.runs| && Live(s.runs[i]) ==> s.rt.cancel == Some(i))
    && (forall i :: 0 <= i < |s.runs| && s.runs[i] == Reporting ==> s.rt.finishing)
    && (s.rt.finishing ==> exists i :: 0 <= i < |s.runs| && s.runs[i] == Reporting)
  }

  function LastPhase(s: System): Phase {
    if s.runs == [] then Done else s.runs[|s.runs| - 1]
  }

  /** The inductive form of `OneRun` and `FlagsAgree`: only the newest run may be alive, and it fixes the flags. */
  predicate Exclusive(s: System) {
    && (forall i :: 0 <= i < |s.runs| - 1 ==> s.runs[i] == Done)
    && (s.rt.finishing <==> LastPhase(s) == Reporting)
    && (s.rt.running <==> Live(LastPhase(s)))
    && s.rt.cancel == if Live(LastPhase(s)) then Some(|s.runs| - 1) else None
  }

  lemma ExclusiveMeans(s: System)
    requires Exclusive(s)
    ensures OneRun(s) && FlagsAgree(s)
  {
  }

  function LiveRuns(runs: seq<Phase>): set<nat> {
    set i: nat | i < |runs| && Live(runs[i])
  }

  /** With one run at a time the cancel function, if any, belongs to all the live runs there are. */
  lemma LiveRunIsCancelled(s: System)
    requires Exclusive(s)
    ensures LiveRuns(s.runs) == if s.rt.cancel.Some? then {s.rt.cancel.value} else {}
  {
    ExclusiveMeans(s);
  }

  predicate InWindow(s: System) {
    exists i :: 0 <= i < |s.runs| && s.runs[i] == Exiting(true)
  }

  lemma WindowIsLast(s: System)
    requires Exclusive(s)
    ensures InWindow(s) <==> LastPhase(s) == Exiting(true)
  {
  }

  predicate Queues(s: System) {
    NoneBlank(s.rt.steering) && NoneBlank(s.rt.followUps)
  }

  lemma StepKeepsQueues(s: System, step: Step, fused: bool)
    requires Queues(s)
    ensures Queues(Apply(s, step, fused))
  {
  }

  /** The loop is left by the normal path only when the follow-up queue was found empty. */
  lemma LeavesOnlyWhenEmpty(s: System, run: nat, fused: bool)
    requires Queues(s) && At(s, run, Looping)
    ensures At(Apply(s, TakeFollowUp(run), fused), run, Looping) <==> s.rt.followUps != []
  {
  }

  predicate StartsInWindow(s: System, step: Step) {
    step.Prompt? && PromptReplyOf(s.rt, step.request).Started? && InWindow(s)
  }

  lemma PromptExclusive(s: System, p: Request, fused: bool)
    requires Exclusive(s)
    ensures LastPhase(s) == Exiting(true) && PromptReplyOf(s.rt, p).Started? ==> !OneRun(Apply(s, Prompt(p), fused))
    ensures !(LastPhase(s) == Exiting(true) && PromptReplyOf(s.rt, p).Started?) ==>
            Exclusive(Apply(s, Prompt(p), fused))
  {
    var n, s' := |s.runs|, Apply(s, Prompt(p), fused);
    if PromptReplyOf(s.rt, p).Started? {
      assert s'.runs[n] == Looping;
      if n != 0 {
        assert s'.runs[n - 1] == s.runs[n - 1];
      }
    }
  }

  lemma FollowUpExclusive(s: System, run: nat, fused: bool)
    requires Exclusive(s) && Queues(s)
    ensures Exclusive(Apply(s, TakeFollowUp(run), fused))
    ensures fused && !InWindow(s) ==> !InWindow(Apply(s, TakeFollowUp(run), fused))
  {
    hide Blank;
    if At(s, run, Looping) {
      LeavesOnlyWhenEmpty(s, run, fused);
    }
  }

  lemma OtherExclusive(s: System, step: Step, fused: bool)
    requires Exclusive(s) && !step.Prompt? && !step.TakeFollowUp?
    ensures Exclusive(Apply(s, step, fused))
    ensures fused && !InWindow(s) ==> !InWindow(Apply(s, step, fused))
  {
  }

  /** A step keeps one run at a time unless it starts a run while another one is about to close. */
  lemma StepExclusive(s: System, step: Step, fused: bool)
    requires Exclusive(s) && Queues(s)
    ensures StartsInWindow(s, step) ==> !OneRun(Apply(s, step, fused))
    ensures !StartsInWindow(s, step) ==> Exclusive(Apply(s, step, fused))
    ensures fused && !InWindow(s) ==> !InWindow(Apply(s, step, fused))
  {
    WindowIsLast(s);
    match step
    case Prompt(p) => PromptExclusive(s, p, fused);
    case TakeFollowUp(r) => FollowUpExclusive(s, r, fused);
    case _ => OtherExclusive(s, step, fused);
  }

  /** With the two critical sections fused, one run at a time, over every interleaving. */
  lemma {:induction false} FusedIsExclusive(steps: seq<Step>)
    ensures Exclusive(Exec(steps, true)) && Queues(Exec(steps, true)) && !InWindow(Exec(steps, true))
    ensures OneRun(Exec(steps, true)) && FlagsAgree(Exec(steps, true))
  {
    if steps != [] {
      var before := steps[..|steps| - 1];
      FusedIsExclusive(before);
      StepExclusive(Exec(before, true), steps[|steps| - 1], true);
      StepKeepsQueues(Exec(before, true), steps[|steps| - 1], true);
    }
    ExclusiveMeans(Exec(steps, true));
  }

  /** Every state that the history passes through has one run at a time and agreeing flags. */
  ghost predicate AlwaysExclusive(steps: seq<Step>) {
    && OneRun(Exec(steps, false)) && FlagsAgree(Exec(steps, false))
    && (steps != [] ==> AlwaysExclusive(steps[..|steps| - 1]))
  }

  ghost predicate NeverStartsInWindow(steps: seq<Step>) {
    steps != [] ==>
      var before := steps[..|steps| - 1];
      NeverStartsInWindow(before) && !StartsInWindow(Exec(before, false), steps[|steps| - 1])
  }

  lemma {:induction false} QueuesNeverBlank(steps: seq<Step>, fused: bool)
    ensures Queues(Exec(steps, fused))
  {
    if steps != [] {
      QueuesNeverBlank(steps[..|steps| - 1], fused);
      StepKeepsQueues(Exec(steps[..|steps| - 1], fused), steps[|steps| - 1], fused);
    }
  }

  /** As written, a history keeps one run at a time exactly when no prompt starts a run in the window. */
  lemma {:induction false} SplitIsExclusiveIff(steps: seq<Step>)
    ensures AlwaysExclusive(steps) <==> NeverStartsInWindow(steps)
    ensures NeverStartsInWindow(steps) ==> Exclusive(Exec(steps, false))
  {
    if steps != [] {
      var before, step := steps[..|steps| - 1], steps[|steps| - 1];
      SplitIsExclusiveIff(before);
      if NeverStartsInWindow(before) {
        QueuesNeverBlank(before, false);
        StepExclusive(Exec(before, false), step, false);
      }
    }
    if NeverStartsInWindow(steps) {
      ExclusiveMeans(Exec(steps, false));
    }
  }

  /** A prompt in the window leaves a live run that nothing can cancel and lets a third run start. */
  lemma WindowTrace(p: Request)
    requires !Blank(p.message) && p.images == 0 && p.decoded && p.stored
    ensures
      var s := Exec([Prompt(p), TakeFollowUp(0), Prompt(p), CloseRun(0), FinishRun(0)], false);
      && s.runs == [Done, Looping]
      && !s.rt.running && s.rt.cancel == None && !FlagsAgree(s)
      && Apply(s, Abort, false) == s
      && Apply(s, Prompt(p), false).runs == [Done, Looping, Looping]
  {
    hide Exec, Blank;
    var s1 := Apply(INITIAL, Prompt(p), false);
    var s2 := Apply(s1, TakeFollowUp(0), false);
    var s3 := Apply(s2, Prompt(p), false);
    var s4 := Apply(s3, CloseRun(0), false);
    var s5 := Apply(s4, FinishRun(0), false);
    assert s1.runs == [Looping] && s2.runs == [Exiting(true)] && s3.runs == [Exiting(true), Looping];
    assert s4.runs == [Reporting, Looping] && s5.runs == [Done, Looping] && Live(s5.runs[1]);
    var steps := [Prompt(p), TakeFollowUp(0), Prompt(p), CloseRun(0), FinishRun(0)];
    ExecFive(steps);
  }

  lemma ExecFive(steps: seq<Step>)
    requires |steps| == 5
    ensures Exec(steps, false) == Apply(Apply(Apply(Apply(Apply(INITIAL, steps[0], false), steps[1], false),
                                        steps[2], false), steps[3], false), steps[4], false)
  {
    assert steps[..4][..3] == steps[..3] && steps[..3][..2] == steps[..2] && steps[..2][..1] == steps[..1];
    assert steps[..1][..0] == [];
    assert Exec(steps[..1], false) == Apply(INITIAL, steps[0], false);
    assert Exec(steps[..2], false) == Apply(Exec(steps[..1], false), steps[1], false);
    assert Exec(steps[..3], false) == Apply(Exec(steps[..2], false), steps[2], false);
    assert Exec(steps[..4], false) == Apply(Exec(steps[..3], false), steps[3], false);
  }

  /** With the critical sections fused an abort request cancels the live runs, all of them and only them. */
  lemma AbortHitsTheLiveRun(steps: seq<Step>)
    ensures
      var s := Exec(steps, true);
      Apply(s, Abort, true).cancelled == s.cancelled + LiveRuns(s.runs) && |LiveRuns(s.runs)| <= 1
  {
    hide Exec, Exclusive, OneRun, FlagsAgree, InWindow, Queues, LiveRuns;
    FusedIsExclusive(steps);
    LiveRunIsCancelled(Exec(steps, true));
  }

  datatype Queue = Steering | FollowUps

  function QueueOf(s: System, q: Queue): seq<string> {
    if q.Steering? then s.rt.steering else s.rt.followUps
  }

  predicate Clears(s: System, step: Step) {
    step.FailRun? && At(s, step.run, Looping)
  }

  function AcceptedBy(s: System, step: Step, q: Queue): seq<string> {
    if step.Prompt? && PromptReplyOf(s.rt, step.request).Queued? && (Steers(step.request.behavior) <==> q.Steering?)
    then [step.request.message] else []
  }

  function TakenBy(s: System, step: Step, q: Queue): seq<string> {
    if q.Steering? && step.TakeSteering? && At(s, step.run, Looping) then TakeQueue(s.rt.steering, s.rt.steeringMode).0
    else if q.FollowUps? && step.TakeFollowUp? && At(s, step.run, Looping)
    then TakeQueue(s.rt.followUps, s.rt.followUpMode).0
    else []
  }

  /** Messages accepted into a queue since it was last cleared, in order of acceptance. */
  function Accepted(steps: seq<Step>, fused: bool, q: Queue): seq<string> {
    if steps == [] then [] else
      var before, step := steps[..|steps| - 1], steps[|steps| - 1];
      var s := Exec(before, fused);
      if Clears(s, step) then [] else Accepted(before, fused, q) + AcceptedBy(s, step, q)
  }

  /** Messages handed to a run since the queue was last cleared, in order. */
  function Taken(steps: seq<Step>, fused: bool, q: Queue): seq<string> {
    if steps == [] then [] else
      var before, step := steps[..|steps| - 1], steps[|steps| - 1];
      var s := Exec(before, fused);
      if Clears(s, step) then [] else Taken(before, fused, q) + TakenBy(s, step, q)
  }

  lemma StepConserves(s: System, step: Step, fused: bool, q: Queue)
    requires !Clears(s, step)
    ensures TakenBy(s, step, q) + QueueOf(Apply(s, step, fused), q) == QueueOf(s, q) + AcceptedBy(s, step, q)
  {
  }

  lemma Regroup(taken: seq<string>, now: seq<string>, after: seq<string>, before: seq<string>, accepted: seq<string>)
    requires now + after == before + accepted
    ensures (taken + now) + after == (taken + before) + accepted
  {
    assert (taken + now) + after == taken + (now + after);
    assert (taken + before) + accepted == taken + (before + accepted);
  }

  /** Between clears, what was taken followed by what is queued is what was accepted, in order. */
  lemma {:induction false} QueueConservation(steps: seq<Step>, fused: bool, q: Queue)
    ensures Taken(steps, fused, q) + QueueOf(Exec(steps, fused), q) == Accepted(steps, fused, q)
  {
    if steps != [] {
      var before, step := steps[..|steps| - 1], steps[|steps| - 1];
      var s := Exec(before, fused);
      QueueConservation(before, fused, q);
      if !Clears(s, step) {
        StepConserves(s, step, fused, q);
        Regroup(Taken(before, fused, q), TakenBy(s, step, q), QueueOf(Apply(s, step, fused), q), QueueOf(s, q),
                AcceptedBy(s, step, q));
      }
    }
  }
}
