/** The client's request/response multiplexer: calls, the read loop and the end of the connection. */
module ClientTransport {
  import opened Wrappers

  /** Request ids are only compared, so numbers stand for them. */
  type Id = nat

  type Error = nat

  datatype Reply = FromServer(id: Id, body: nat) | Failure(error: Error)

  /** How a call ends; `Closed(None)` is the nil error that a call returns when no error was recorded. */
  datatype Outcome = Answered(reply: Reply) | WriteFailed | Cancelled | Closed(error: Option<Error>)

  datatype Phase = Writing | Waiting | Returned(outcome: Outcome)

  /** A call with its one-slot channel; `sends` counts what was ever sent to it. */
  datatype Call = Call(id: Id, phase: Phase, box: seq<Reply>, sends: nat)

  datatype Reader = Reading | Delivering(call: nat, reply: Reply) | Failing(error: Error) | Leaving | Finished

  /** `stuck` says that some send met a full channel. */
  datatype System = System(
    calls: map<nat, Call>, pending: map<Id, nat>, reader: Reader,
    error: Option<Error>, cancelled: bool, stuck: bool)

  const INIT := System(map[], map[], Reading, None, false, false)

  datatype Step =
    | Register(call: nat, id: Id)
    | Write(call: nat, ok: bool)
    | TakeReply(call: nat)
    | GiveUp(call: nat)
    | SeeDone(call: nat)
    | Receive(id: Id, body: nat)
    | Push
    | ReadFails(error: Error)
    | DrainPending
    | StopOnEvent
    | Close
    | Finish

  function Sent(c: Call, reply: Reply): Call {
    c.(box := c.box + [reply], sends := c.sends + 1)
  }

  function Ended(s: System, k: nat, outcome: Outcome): System
    requires k in s.calls
  {
    s.(calls := s.calls[k := s.calls[k].(phase := Returned(outcome))])
  }

  function Removed(s: System, id: Id): System {
    s.(pending := s.pending - {id})
  }

  /** A call is refused once the reader has finished; otherwise its channel is registered. */
  function Registered(s: System, k: nat, id: Id): System {
    if k in s.calls then s
    else if s.reader == Finished then s.(calls := s.calls[k := Call(id, Returned(Closed(s.error)), [], 0)])
    else s.(calls := s.calls[k := Call(id, Writing, [], 0)], pending := s.pending[id := k])
  }

  predicate InPhase(s: System, k: nat, phase: Phase) {
    k in s.calls && s.calls[k].phase == phase
  }

  function Written(s: System, k: nat, ok: bool): System {
    if !InPhase(s, k, Writing) then s
    else if ok then s.(calls := s.calls[k := s.calls[k].(phase := Waiting)])
    else Ended(Removed(s, s.calls[k].id), k, WriteFailed)
  }

  function Taken(s: System, k: nat): System {
    if InPhase(s, k, Waiting) && s.calls[k].box != [] then
      var c := s.calls[k];
      s.(calls := s.calls[k := c.(phase := Returned(Answered(c.box[0])), box := c.box[1..])])
    else s
  }

  function GivenUp(s: System, k: nat): System {
    if InPhase(s, k, Waiting) then Ended(Removed(s, s.calls[k].id), k, Cancelled) else s
  }

  function SawDone(s: System, k: nat): System {
    if InPhase(s, k, Waiting) && s.reader == Finished then Ended(Removed(s, s.calls[k].id), k, Closed(s.error)) else s
  }

  function Received(s: System, id: Id, body: nat): System {
    if s.reader != Reading || id !in s.pending then s
    else s.(reader := Delivering(s.pending[id], FromServer(id, body)), pending := s.pending - {id})
  }

  function Pushed(s: System): System {
    if s.reader.Delivering? && s.reader.call in s.calls then
      var c := s.calls[s.reader.call];
      s.(calls := s.calls[s.reader.call := Sent(c, s.reader.reply)], reader := Reading, stuck := s.stuck || c.box != [])
    else s
  }

  predicate IsPending(pending: map<Id, nat>, k: nat) {
    exists id :: id in pending && pending[id] == k
  }

  /** Every pending channel is sent the failure, and nothing stays pending. */
  function Drained(s: System): System {
    if s.reader.Failing? then
      var failure := Failure(s.reader.error);
      s.(calls := map k | k in s.calls :: if IsPending(s.pending, k) then Sent(s.calls[k], failure) else s.calls[k],
         pending := map[], cancelled := true, reader := Leaving,
         stuck := s.stuck || exists id ::
                    id in s.pending && s.pending[id] in s.calls && s.calls[s.pending[id]].box != [])
    else s
  }

  function Apply(s: System, step: Step): System {
    match step
    case Register(k, id) => Registered(s, k, id)
    case Write(k, ok) => Written(s, k, ok)
    case TakeReply(k) => Taken(s, k)
    case GiveUp(k) => GivenUp(s, k)
    case SeeDone(k) => SawDone(s, k)
    case Receive(id, body) => Received(s, id, body)
    case Push => Pushed(s)
    case ReadFails(e) =>
      if s.reader == Reading then s.(reader := Failing(e), error := if s.error.None? then Some(e) else s.error) else s
    case DrainPending => Drained(s)
    case StopOnEvent => if s.reader == Reading && s.cancelled then s.(reader := Leaving) else s
    case Close => s.(cancelled := true)
    case Finish => if s.reader == Leaving then s.(reader := Finished) else s
  }

  function Exec(steps: seq<Step>): System {
    if steps == [] then INIT else Apply(Exec(steps[..|steps| - 1]), steps[|steps| - 1])
  }

  // ---- What every step keeps ----

  predicate ForCall(reply: Reply, id: Id) {
    reply.FromServer? ==> reply.id == id
  }

  predicate TookReply(c: Call) {
    c.phase.Returned? && c.phase.outcome.Answered?
  }

  /**
   A call has taken or still holds the one reply sent to it, if any, and a server's reply carries the call's own id.
   */
  predicate CallSound(s: System, c: Call) {
    && c.sends <= 1 && c.sends == |c.box| + (if TookReply(c) then 1 else 0)
    && (forall i :: 0 <= i < |c.box| ==> ForCall(c.box[i], c.id))
    && (c.phase.Returned? && c.phase.outcome.Answered? ==> ForCall(c.phase.outcome.reply, c.id))
    && (c.phase.Returned? && c.phase.outcome.Closed? ==> s.reader == Finished && c.phase.outcome.error == s.error)
  }

  /** A channel that a reply can still be sent to has not been sent one. */
  predicate Awaits(s: System, k: nat, id: Id) {
    k in s.calls && s.calls[k].id == id && s.calls[k].sends == 0
  }

  ghost predicate CallsSound(s: System) {
    forall k :: k in s.calls ==> CallSound(s, s.calls[k])
  }

  ghost predicate PendingSound(s: System) {
    forall id :: id in s.pending ==> Awaits(s, s.pending[id], id)
  }

  predicate ReaderSound(s: System) {
    && (s.reader.Delivering? ==>
          && s.reader.reply.FromServer? && Awaits(s, s.reader.call, s.reader.reply.id)
          && !IsPending(s.pending, s.reader.call))
    && (s.reader.Reading? || s.reader.Delivering? ==> s.error.None?)
    && (s.reader.Failing? ==> s.error == Some(s.reader.error))
  }

  ghost predicate Inv(s: System) {
    CallsSound(s) && PendingSound(s) && ReaderSound(s) && !s.stuck
  }

  lemma RegisterKeeps(s: System, k: nat, id: Id)
    requires Inv(s)
    ensures Inv(Registered(s, k, id))
  {
    var after := Registered(s, k, id);
    if k !in s.calls {
      forall j | j in after.calls
        ensures CallSound(after, after.calls[j])
      {
        assert j in s.calls ==> CallSound(s, s.calls[j]);
      }
      assert forall i :: i in s.pending ==> Awaits(s, s.pending[i], i);
    }
  }

  /** Ending a call touches neither its channel nor the others. */
  lemma EndKeeps(s: System, k: nat, outcome: Outcome)
    requires Inv(s) && k in s.calls
    requires CallSound(s, s.calls[k].(phase := Returned(outcome)))
    ensures Inv(Ended(Removed(s, s.calls[k].id), k, outcome))
  {
  }

  lemma WrittenKeeps(s: System, k: nat, ok: bool)
    requires Inv(s)
    ensures Inv(Written(s, k, ok))
  {
  }

  lemma TakenKeeps(s: System, k: nat)
    requires Inv(s)
    ensures Inv(Taken(s, k))
  {
  }

  lemma ReceiveKeeps(s: System, id: Id, body: nat)
    requires Inv(s)
    ensures Inv(Received(s, id, body))
  {
  }

  lemma PushKeeps(s: System)
    requires Inv(s)
    ensures Inv(Pushed(s))
  {
  }

  lemma DrainKeeps(s: System)
    requires Inv(s)
    ensures Inv(Drained(s))
  {
  }

  lemma ReaderMoves(s: System, after: System)
    requires Inv(s) && after.calls == s.calls && after.pending == s.pending && after.stuck == s.stuck
    requires s.reader != Finished && ReaderSound(after)
    ensures Inv(after)
  {
  }

  lemma StepKeeps(s: System, step: Step)
    requires Inv(s)
    ensures Inv(Apply(s, step))
  {
    match step
    case Register(k, id) => RegisterKeeps(s, k, id);
    case Write(k, ok) => WrittenKeeps(s, k, ok);
    case TakeReply(k) => TakenKeeps(s, k);
    case GiveUp(k) =>
      if InPhase(s, k, Waiting) {
        assert CallSound(s, s.calls[k]);
        EndKeeps(s, k, Cancelled);
      }
    case SeeDone(k) =>
      if InPhase(s, k, Waiting) && s.reader == Finished {
        assert CallSound(s, s.calls[k]);
        EndKeeps(s, k, Closed(s.error));
      }
    case Receive(id, body) => ReceiveKeeps(s, id, body);
    case Push => PushKeeps(s);
    case DrainPending => DrainKeeps(s);
    case Close => assert forall k :: k in s.calls ==> CallSound(s, s.calls[k]);
    case _ =>
      if Apply(s, step) != s {
        ReaderMoves(s, Apply(s, step));
      }
  }

  lemma {:induction false} Reachable(steps: seq<Step>)
    ensures Inv(Exec(steps))
  {
    if steps != [] {
      Reachable(steps[..|steps| - 1]);
      StepKeeps(Exec(steps[..|steps| - 1]), steps[|steps| - 1]);
    }
  }

  /** Over every interleaving: no send blocks, and a reply reaches only the call with its id, at most once. */
  lemma RepliesReachTheirCalls(steps: seq<Step>, k: nat)
    requires k in Exec(steps).calls
    ensures !Exec(steps).stuck && Exec(steps).calls[k].sends <= 1
    ensures
      var c := Exec(steps).calls[k];
      c.phase.Returned? && c.phase.outcome.Answered? && c.phase.outcome.reply.FromServer? ==>
        c.phase.outcome.reply.id == c.id
  {
    Reachable(steps);
    assert CallSound(Exec(steps), Exec(steps).calls[k]);
  }

  // ---- The end of the connection ----

  /** The reader left while handing over an event, after the client was closed, so no error was recorded. */
  ghost predicate LeftOnEvent(steps: seq<Step>) {
    exists i :: 0 <= i < |steps| && steps[i] == StopOnEvent && Exec(steps[..i]).reader == Reading
      && Exec(steps[..i]).cancelled
  }

  lemma LeftOnEventOneMore(steps: seq<Step>)
    requires steps != []
    ensures
      var n := |steps| - 1;
      LeftOnEvent(steps) <==>
      || LeftOnEvent(steps[..n])
      || (steps[n] == StopOnEvent && Exec(steps[..n]).reader == Reading && Exec(steps[..n]).cancelled)
  {
    var n := |steps| - 1;
    assert forall i :: 0 <= i < n ==> steps[..n][i] == steps[i] && steps[..n][..i] == steps[..i];
  }

  predicate AtEnd(reader: Reader) {
    reader == Leaving || reader == Finished
  }

  lemma EndStep(s: System, step: Step)
    requires ReaderSound(s)
    ensures
      var after := Apply(s, step);
      && (AtEnd(s.reader) ==> AtEnd(after.reader) && after.error == s.error)
      && (!AtEnd(s.reader) && AtEnd(after.reader) ==>
            (after.error.None? <==> step == StopOnEvent)
              && (step == StopOnEvent ==> s.reader == Reading && s.cancelled))
      && (step == StopOnEvent && s.reader == Reading && s.cancelled ==> AtEnd(after.reader))
  {
  }

  /** At the end no error is recorded exactly if the reader left while handing over an event. */
  lemma {:induction false} NoErrorIff(steps: seq<Step>)
    ensures AtEnd(Exec(steps).reader) ==> (Exec(steps).error.None? <==> LeftOnEvent(steps))
    ensures !AtEnd(Exec(steps).reader) ==> !LeftOnEvent(steps)
  {
    if steps != [] {
      var n := |steps| - 1;
      NoErrorIff(steps[..n]);
      Reachable(steps[..n]);
      LeftOnEventOneMore(steps);
      EndStep(Exec(steps[..n]), steps[n]);
    }
  }

  /** A call that ends because the reader finished returns no error exactly if the reader left on an event. */
  lemma ClosedWithoutErrorIff(steps: seq<Step>, k: nat)
    requires k in Exec(steps).calls && Exec(steps).calls[k].phase.Returned?
             && Exec(steps).calls[k].phase.outcome.Closed?
    ensures Exec(steps).calls[k].phase.outcome.error.None? <==> LeftOnEvent(steps)
  {
    Reachable(steps);
    NoErrorIff(steps);
    assert CallSound(Exec(steps), Exec(steps).calls[k]);
  }

  /** What a call still has to do to return once the reader has finished; `ok` says whether its write succeeds. */
  function ReturnSteps(c: Call, k: nat, ok: bool): seq<Step> {
    var last := if c.box != [] then TakeReply(k) else SeeDone(k);
    if c.phase != Writing then [last] else if ok then [Write(k, true), last] else [Write(k, false)]
  }

  function ReturnOutcome(s: System, c: Call, ok: bool): Outcome {
    if c.phase == Writing && !ok then WriteFailed
    else if c.box != [] then Answered(c.box[0])
    else Closed(s.error)
  }

  lemma LastStepReturns(s: System, k: nat)
    requires InPhase(s, k, Waiting) && s.reader == Finished
    ensures
      var c := s.calls[k];
      var after := Apply(s, if c.box != [] then TakeReply(k) else SeeDone(k));
      && k in after.calls && after.calls[k].phase == Returned(ReturnOutcome(s, c, true))
      && (forall j :: j in s.calls && j != k ==> j in after.calls && after.calls[j] == s.calls[j])
  {
  }

  lemma WriteStepMoves(s: System, k: nat, ok: bool)
    requires InPhase(s, k, Writing)
    ensures
      var after := Apply(s, Write(k, ok));
      && k in after.calls && after.calls[k] == s.calls[k].(phase := if ok then Waiting else Returned(WriteFailed))
      && after.reader == s.reader && after.error == s.error
      && (forall j :: j in s.calls && j != k ==> j in after.calls && after.calls[j] == s.calls[j])
  {
  }

  lemma OwnStepsReturn(steps: seq<Step>, k: nat, ok: bool)
    requires Exec(steps).reader == Finished && k in Exec(steps).calls && !Exec(steps).calls[k].phase.Returned?
    ensures
      var s := Exec(steps);
      var after := Exec(steps + ReturnSteps(s.calls[k], k, ok));
      && k in after.calls && after.calls[k].phase == Returned(ReturnOutcome(s, s.calls[k], ok))
      && (forall j :: j in s.calls && j != k ==> j in after.calls && after.calls[j] == s.calls[j])
  {
    hide Exec, Apply;
    var s := Exec(steps);
    var c := s.calls[k];
    var last := if c.box != [] then TakeReply(k) else SeeDone(k);
    if c.phase != Writing {
      OneMoreStep(steps, last);
      LastStepReturns(s, k);
    } else {
      OneMoreStep(steps, Write(k, ok));
      WriteStepMoves(s, k, ok);
      if ok {
        var written := steps + [Write(k, true)];
        OneMoreStep(written, last);
        assert written + [last] == steps + [Write(k, true), last];
        LastStepReturns(Exec(written), k);
      }
    }
  }

  /**
   Once the reader has finished, every call in flight can return by its own steps alone, whichever way its write goes
   and without touching another call: with the one reply in its channel, which is its own, or, if there is none, with
   the recorded error, which is missing exactly if the reader left on an event. It need not take the reply, see below.
   */
  lemma EveryCallCanReturn(steps: seq<Step>, k: nat, ok: bool)
    requires Exec(steps).reader == Finished && k in Exec(steps).calls && !Exec(steps).calls[k].phase.Returned?
    ensures
      var s := Exec(steps);
      var after := Exec(steps + ReturnSteps(s.calls[k], k, ok));
      && k in after.calls && after.calls[k].phase.Returned?
      && (forall j :: j in s.calls && j != k ==> j in after.calls && after.calls[j] == s.calls[j])
      && match after.calls[k].phase.outcome {
           case WriteFailed => s.calls[k].phase == Writing && !ok
           case Answered(reply) => s.calls[k].box == [reply] && ForCall(reply, s.calls[k].id)
           case Closed(error) => s.calls[k].sends == 0 && (error.None? <==> LeftOnEvent(steps))
           case Cancelled => false
         }
  {
    hide Exec, Apply, LeftOnEvent;
    OwnStepsReturn(steps, k, ok);
    Reachable(steps);
    NoErrorIff(steps);
    assert CallSound(Exec(steps), Exec(steps).calls[k]);
  }

  /** The client is closed, the reader leaves while handing over an event, and the call sees the end. */
  const CLOSING_STEPS: seq<Step> := [Close, StopOnEvent, Finish, SeeDone(0)]

  lemma ClosingEndsTheCall(steps: seq<Step>, c: Call, pending: map<Id, nat>)
    requires Exec(steps) == System(map[0 := c], pending, Reading, None, false, false) && c.phase == Waiting
    ensures
      var after := Exec(steps + CLOSING_STEPS);
      0 in after.calls && after.calls[0] == c.(phase := Returned(Closed(None)))
  {
    hide Exec, Received, Pushed, Drained, Taken, GivenUp;
    FourSteps(steps, Close, StopOnEvent, Finish, SeeDone(0));
    var left := System(map[0 := c], pending, Finished, None, true, false);
    assert Apply(Apply(Apply(Exec(steps), Close), StopOnEvent), Finish) == left;
  }

  lemma FourSteps(steps: seq<Step>, a: Step, b: Step, c: Step, d: Step)
    ensures Exec(steps + [a, b, c, d]) == Apply(Apply(Apply(Apply(Exec(steps), a), b), c), d)
  {
    hide Exec, Apply;
    OneMoreStep(steps, a);
    OneMoreStep(steps + [a], b);
    OneMoreStep(steps + [a] + [b], c);
    OneMoreStep(steps + [a] + [b] + [c], d);
    assert steps + [a, b, c, d] == steps + [a] + [b] + [c] + [d];
  }

  lemma OneCallWaits()
    ensures Exec([Register(0, 7), Write(0, true)]) ==
            System(map[0 := Call(7, Waiting, [], 0)], map[7 := 0], Reading, None, false, false)
  {
    hide Exec, Received, Pushed, Drained, Taken, GivenUp;
    NoSteps();
    OneMoreStep([], Register(0, 7));
    OneMoreStep([Register(0, 7)], Write(0, true));
    assert [] + [Register(0, 7)] == [Register(0, 7)];
    assert [Register(0, 7)] + [Write(0, true)] == [Register(0, 7), Write(0, true)];
  }

  /** A call in flight when the client is closed can return a nil error without any reply. */
  lemma CloseCanLookLikeSuccess()
    ensures
      var s := Exec([Register(0, 7), Write(0, true)] + CLOSING_STEPS);
      0 in s.calls && s.calls[0].phase == Returned(Closed(None)) && s.calls[0].sends == 0
  {
    hide Exec;
    OneCallWaits();
    ClosingEndsTheCall([Register(0, 7), Write(0, true)], Call(7, Waiting, [], 0), map[7 := 0]);
  }

  // ---- A reply can be left unread ----

  /** Whether a call in flight can end in this way next, told from its phase, its channel and the reader. */
  predicate MayEnd(s: System, c: Call, outcome: Outcome) {
    match outcome
    case Answered(reply) => c.phase == Waiting && c.box != [] && reply == c.box[0]
    case WriteFailed => c.phase == Writing
    case Cancelled => c.phase == Waiting
    case Closed(error) => c.phase == Waiting && s.reader == Finished && error == s.error
  }

  ghost predicate EndsBy(s: System, k: nat, outcome: Outcome, step: Step) {
    InPhase(Apply(s, step), k, Returned(outcome))
  }

  function EndingStep(k: nat, outcome: Outcome): Step {
    match outcome
    case Answered(_) => TakeReply(k)
    case WriteFailed => Write(k, false)
    case Cancelled => GiveUp(k)
    case Closed(_) => SeeDone(k)
  }

  lemma OnlyItsStepsEndACall(s: System, k: nat, outcome: Outcome, step: Step)
    requires k in s.calls && !s.calls[k].phase.Returned? && EndsBy(s, k, outcome, step)
    ensures step == EndingStep(k, outcome) && MayEnd(s, s.calls[k], outcome)
  {
  }

  /** What may be the next end of a call in flight, of all steps that anyone can take. */
  lemma EndsNextIff(s: System, k: nat, outcome: Outcome)
    requires k in s.calls && !s.calls[k].phase.Returned?
    ensures (exists step :: EndsBy(s, k, outcome, step)) <==> MayEnd(s, s.calls[k], outcome)
  {
    hide EndsBy;
    if step :| EndsBy(s, k, outcome, step) {
      OnlyItsStepsEndACall(s, k, outcome, step);
    }
    if MayEnd(s, s.calls[k], outcome) {
      ItsStepEndsIt(s, k, outcome);
    }
  }

  lemma ItsStepEndsIt(s: System, k: nat, outcome: Outcome)
    requires k in s.calls && MayEnd(s, s.calls[k], outcome)
    ensures EndsBy(s, k, outcome, EndingStep(k, outcome))
  {
  }

  /**
   A call to which a reply was sent may end without it exactly if its write fails, if it is cancelled while it waits,
   or if it waits and the reader has finished: the reply wins over neither.
   */
  lemma MayMissItsReplyIff(steps: seq<Step>, k: nat, outcome: Outcome)
    requires k in Exec(steps).calls && !Exec(steps).calls[k].phase.Returned? && Exec(steps).calls[k].sends == 1
    requires !outcome.Answered?
    ensures
      var s := Exec(steps);
      (exists step :: EndsBy(s, k, outcome, step) && |Apply(s, step).calls[k].box| == 1) <==>
        MayEnd(s, s.calls[k], outcome)
  {
    hide EndsBy, Exec, Apply, MayEnd;
    var s := Exec(steps);
    EndsNextIff(s, k, outcome);
    Reachable(steps);
    if step :| EndsBy(s, k, outcome, step) {
      EndLeavesReply(s, k, outcome, step);
    }
  }

  lemma EndLeavesReply(s: System, k: nat, outcome: Outcome, step: Step)
    requires Inv(s) && k in s.calls && !s.calls[k].phase.Returned? && s.calls[k].sends == 1
    requires !outcome.Answered? && EndsBy(s, k, outcome, step)
    ensures k in Apply(s, step).calls && |Apply(s, step).calls[k].box| == 1
  {
    assert CallSound(s, s.calls[k]);
    OnlyItsStepsEndACall(s, k, outcome, step);
  }

  /**
   Over every interleaving: the reply sent to a call that has returned was taken by it, or lies unread in its channel.
   */
  lemma SentRepliesAreTakenOrUnread(steps: seq<Step>, k: nat)
    requires k in Exec(steps).calls && Exec(steps).calls[k].phase.Returned?
    ensures
      var c := Exec(steps).calls[k];
      && c.sends <= 1 && |c.box| <= 1
      && (c.sends == 1 <==> c.phase.outcome.Answered? || c.box != []) && !(c.phase.outcome.Answered? && c.box != [])
  {
    Reachable(steps);
    assert CallSound(Exec(steps), Exec(steps).calls[k]);
  }

  /** The reply has arrived, the client is closed, and the waiting call looks at the end of the connection first. */
  lemma ReplyIsLeftUnread()
    ensures
      var s := Exec([Register(0, 7), Write(0, true)] + [Receive(7, 1), Push] + CLOSING_STEPS);
      0 in s.calls && s.calls[0].phase == Returned(Closed(None)) && s.calls[0].box == [FromServer(7, 1)]
  {
    hide Exec, Apply;
    var before := [Register(0, 7), Write(0, true)];
    OneCallWaits();
    OneMoreStep(before, Receive(7, 1));
    OneMoreStep(before + [Receive(7, 1)], Push);
    assert before + [Receive(7, 1)] + [Push] == before + [Receive(7, 1), Push];
    ReplyIsDelivered();
    ClosingEndsTheCall(before + [Receive(7, 1), Push], Call(7, Waiting, [FromServer(7, 1)], 1), map[]);
  }

  lemma ReplyIsDelivered()
    ensures
      var s := System(map[0 := Call(7, Waiting, [], 0)], map[7 := 0], Reading, None, false, false);
      Apply(Apply(s, Receive(7, 1)), Push) ==
      System(map[0 := Call(7, Waiting, [FromServer(7, 1)], 1)], map[], Reading, None, false, false)
  {
    assert [] + [FromServer(7, 1)] == [FromServer(7, 1)];
  }

  lemma NoSteps()
    ensures Exec([]) == INIT
  {
  }

  lemma OneMoreStep(steps: seq<Step>, step: Step)
    ensures Exec(steps + [step]) == Apply(Exec(steps), step)
  {
  }

  // ---- With unique ids no call is forgotten ----

  /** A call that has not returned is pending, about to be sent its reply, or was sent one. */
  predicate Tracked(s: System, k: nat)
    requires k in s.calls
  {
    s.calls[k].phase.Returned? || s.calls[k].sends == 1
    || (s.calls[k].id in s.pending && s.pending[s.calls[k].id] == k)
    || (s.reader.Delivering? && s.reader.call == k)
  }

  predicate FreshId(s: System, step: Step) {
    step.Register? ==> forall k :: k in s.calls ==> s.calls[k].id != step.id
  }

  ghost predicate UniqueIds(s: System) {
    forall j, k :: j in s.calls && k in s.calls && s.calls[j].id == s.calls[k].id ==> j == k
  }

  ghost predicate AllTracked(s: System) {
    forall k :: k in s.calls ==> Tracked(s, k)
  }

  lemma StepKeepsUnique(s: System, step: Step)
    requires UniqueIds(s) && FreshId(s, step)
    ensures UniqueIds(Apply(s, step))
  {
  }

  lemma DrainTracks(s: System, k: nat)
    requires Inv(s) && s.reader.Failing? && k in s.calls && Tracked(s, k)
    ensures Drained(s).calls[k].phase.Returned? || Drained(s).calls[k].sends == 1
  {
  }

  lemma RegisterTracks(s: System, j: nat, id: Id, k: nat)
    requires AllTracked(s) && FreshId(s, Register(j, id)) && k in Registered(s, j, id).calls
    ensures Tracked(Registered(s, j, id), k)
  {
    assert k in s.calls ==> Tracked(s, k);
  }

  /** Ending one call takes its own id out, which no other call has. */
  lemma EndTracks(s: System, j: nat, outcome: Outcome, k: nat)
    requires UniqueIds(s) && j in s.calls && k in s.calls && Tracked(s, k)
    ensures Tracked(Ended(Removed(s, s.calls[j].id), j, outcome), k)
  {
  }

  lemma ReceiveTracks(s: System, id: Id, body: nat, k: nat)
    requires PendingSound(s) && k in s.calls && Tracked(s, k)
    ensures Tracked(Received(s, id, body), k)
  {
  }

  lemma PushTracks(s: System, k: nat)
    requires ReaderSound(s) && k in s.calls && Tracked(s, k)
    ensures Tracked(Pushed(s), k)
  {
  }

  lemma StepKeepsTracked(s: System, step: Step, k: nat)
    requires Inv(s) && UniqueIds(s) && AllTracked(s) && FreshId(s, step) && k in Apply(s, step).calls
    ensures Tracked(Apply(s, step), k)
  {
    assert k in s.calls ==> Tracked(s, k);
    match step
    case Register(j, id) => RegisterTracks(s, j, id, k);
    case Write(j, ok) =>
      if InPhase(s, j, Writing) && !ok {
        EndTracks(s, j, WriteFailed, k);
      }
    case GiveUp(j) =>
      if InPhase(s, j, Waiting) {
        EndTracks(s, j, Cancelled, k);
      }
    case SeeDone(j) =>
      if InPhase(s, j, Waiting) && s.reader == Finished {
        EndTracks(s, j, Closed(s.error), k);
      }
    case Receive(id, body) => ReceiveTracks(s, id, body, k);
    case Push => PushTracks(s, k);
    case DrainPending =>
      if s.reader.Failing? {
        DrainTracks(s, k);
      }
    case _ =>
  }

  ghost predicate FreshIds(steps: seq<Step>) {
    forall i :: 0 <= i < |steps| ==> FreshId(Exec(steps[..i]), steps[i])
  }

  /** With unique ids every call in flight is pending, or its one reply is on the way, in its channel or taken. */
  lemma {:induction false} NoCallIsForgotten(steps: seq<Step>)
    requires FreshIds(steps)
    ensures UniqueIds(Exec(steps)) && AllTracked(Exec(steps))
  {
    if steps != [] {
      var n := |steps| - 1;
      assert forall i :: 0 <= i < n ==> steps[..n][i] == steps[i] && steps[..n][..i] == steps[..i];
      NoCallIsForgotten(steps[..n]);
      Reachable(steps[..n]);
      StepKeepsUnique(Exec(steps[..n]), steps[n]);
      forall k | k in Exec(steps).calls
        ensures Tracked(Exec(steps), k)
      {
        StepKeepsTracked(Exec(steps[..n]), steps[n], k);
      }
    }
  }

  lemma ReplyTaken(s: System, k: nat, id: Id, body: nat)
    requires Inv(s) && InPhase(s, k, Waiting) && s.reader == Reading && id in s.pending && s.pending[id] == k
    ensures
      var after := Apply(Apply(Apply(s, Receive(id, body)), Push), TakeReply(k));
      && after.reader == Reading && after.pending == s.pending - {id} && after.error == s.error
      && after.calls.Keys == s.calls.Keys && after.calls[k].phase == Returned(Answered(FromServer(id, body)))
      && forall j :: j in s.calls && j != k ==> after.calls[j] == s.calls[j]
  {
    assert Awaits(s, k, id) && CallSound(s, s.calls[k]);
    assert [] + [FromServer(id, body)] == [FromServer(id, body)];
  }

  /**
   While the reader reads and ids are unique, a waiting call that was sent nothing yet returns with the very reply that
   the server sends under its id, and no other call is touched.
   */
  lemma ReplyReachesItsCall(steps: seq<Step>, k: nat, body: nat)
    requires FreshIds(steps) && InPhase(Exec(steps), k, Waiting)
    requires Exec(steps).reader == Reading && Exec(steps).calls[k].sends == 0
    ensures
      var s := Exec(steps);
      var id := s.calls[k].id;
      var after := Exec(steps + [Receive(id, body)] + [Push] + [TakeReply(k)]);
      && after.reader == Reading && after.calls.Keys == s.calls.Keys
      && after.calls[k].phase == Returned(Answered(FromServer(id, body)))
      && forall j :: j in s.calls && j != k ==> after.calls[j] == s.calls[j]
  {
    NoCallIsForgotten(steps);
    Reachable(steps);
    var s := Exec(steps);
    var id := s.calls[k].id;
    assert Tracked(s, k);
    ReplyTaken(s, k, id, body);
    hide *;
    OneMoreStep(steps, Receive(id, body));
    OneMoreStep(steps + [Receive(id, body)], Push);
    OneMoreStep(steps + [Receive(id, body)] + [Push], TakeReply(k));
  }

  /** When the connection fails, every call in flight has been sent its reply or the failure. */
  lemma FailureReachesEveryCall(steps: seq<Step>, k: nat)
    requires FreshIds(steps) && Exec(steps).reader.Failing? && k in Exec(steps).calls
    ensures Drained(Exec(steps)).calls[k].phase.Returned? || Drained(Exec(steps)).calls[k].sends == 1
  {
    NoCallIsForgotten(steps);
    Reachable(steps);
    DrainTracks(Exec(steps), k);
  }

  // ---- The tables under the pending lock ----

  /** Part of the way through failing: a channel is still pending, or has failed. */
  ghost predicate FailedSoFar(pending0: map<Id, nat>, pending: map<Id, nat>, failed: set<nat>) {
    && (forall id :: id in pending0 ==> id in pending || pending0[id] in failed)
    && (forall id :: id in pending ==> id in pending0 && pending[id] == pending0[id])
    && failed <= Channels(pending0)
  }

  function Channels(pending: map<Id, nat>): set<nat> {
    set id | id in pending :: pending[id]
  }

  lemma OneMoreFailed(pending0: map<Id, nat>, pending: map<Id, nat>, failed: set<nat>, id: Id)
    requires FailedSoFar(pending0, pending, failed) && id in pending
    ensures FailedSoFar(pending0, pending - {id}, failed + {pending[id]})
  {
  }

  lemma AllFailed(pending0: map<Id, nat>, pending: map<Id, nat>, failed: set<nat>)
    requires FailedSoFar(pending0, pending, failed) && pending.Keys == {}
    ensures pending == map[] && failed == Channels(pending0)
  {
  }

  function WithFailures(boxes: map<nat, seq<Reply>>, failed: set<nat>, failure: Error): map<nat, seq<Reply>> {
    map k | k in boxes :: if k in failed then [Failure(failure)] else boxes[k]
  }

  lemma FailuresMean(boxes: map<nat, seq<Reply>>, pending: map<Id, nat>, failure: Error)
    ensures WithFailures(boxes, Channels(pending), failure) ==
            map k | k in boxes ::
              if exists id :: id in pending && pending[id] == k then [Failure(failure)] else boxes[k]
  {
    assert forall k :: k in Channels(pending) <==> exists id :: id in pending && pending[id] == k;
  }

  lemma OneMoreBox(boxes: map<nat, seq<Reply>>, failed: set<nat>, failure: Error, k: nat)
    requires k in boxes
    ensures WithFailures(boxes, failed + {k}, failure) == WithFailures(boxes, failed, failure)[k := [Failure(failure)]]
  {
  }

  /** Every pending channel exists and is empty, and no two ids share one. */
  ghost predicate Free(pending: map<Id, nat>, boxes: map<nat, seq<Reply>>) {
    && (forall id :: id in pending ==> pending[id] in boxes && boxes[pending[id]] == [])
    && (forall a, b :: a in pending && b in pending && pending[a] == pending[b] ==> a == b)
  }

  /** The channels of a system, as the tables hold them. */
  function Boxes(s: System): map<nat, seq<Reply>> {
    map k | k in s.calls :: s.calls[k].box
  }

  lemma InvMeansFree(s: System)
    requires Inv(s)
    ensures Free(s.pending, Boxes(s))
  {
    forall id | id in s.pending
      ensures s.pending[id] in Boxes(s) && Boxes(s)[s.pending[id]] == []
    {
      assert Awaits(s, s.pending[id], id) && CallSound(s, s.calls[s.pending[id]]);
    }
    forall a, b | a in s.pending && b in s.pending && s.pending[a] == s.pending[b]
      ensures a == b
    {
      assert Awaits(s, s.pending[a], a) && Awaits(s, s.pending[b], b);
    }
  }

  lemma RegisterTables(s: System, k: nat, id: Id)
    requires k !in s.calls
    ensures Boxes(Registered(s, k, id)) == Boxes(s)[k := []]
    ensures Registered(s, k, id).pending == if s.reader == Finished then s.pending else s.pending[id := k]
  {
  }

  /** A reply's way through the tables: found, taken out and pushed. */
  lemma DeliverTables(s: System, id: Id, body: nat)
    requires Inv(s) && s.reader == Reading
    ensures
      var after := Pushed(Received(s, id, body));
      && after.pending == s.pending - {id} && after.reader == Reading && after.error == s.error
      && Boxes(after) == if id in s.pending then Boxes(s)[s.pending[id] := [FromServer(id, body)]] else Boxes(s)
  {
    ReceiveKeeps(s, id, body);
    if id in s.pending {
      assert Awaits(s, s.pending[id], id) && CallSound(s, s.calls[s.pending[id]]);
      assert [] + [FromServer(id, body)] == [FromServer(id, body)];
    }
  }

  /** A failure's way through the tables: recorded unless another was, and sent to every pending channel. */
  lemma FailTables(s: System, failure: Error)
    requires Inv(s) && s.reader == Reading && s.error.None?
    ensures
      var after := Drained(Apply(s, ReadFails(failure)));
      && after.pending == map[] && after.error == Some(failure) && after.reader == Leaving
      && Boxes(after) == WithFailures(Boxes(s), Channels(s.pending), failure)
  {
    InvMeansFree(s);
    hide Inv;
    var after := Drained(Apply(s, ReadFails(failure)));
    assert forall k :: IsPending(s.pending, k) <==> k in Channels(s.pending);
    forall k | k in s.calls
      ensures Boxes(after)[k] == WithFailures(Boxes(s), Channels(s.pending), failure)[k]
    {
      assert [] + [Failure(failure)] == [Failure(failure)];
    }
  }

  lemma RemovedKeeps(s: System, id: Id)
    requires Inv(s)
    ensures Inv(Removed(s, id))
  {
    assert forall k :: k in s.calls ==> CallSound(s, s.calls[k]);
  }

  /** The client's tables, with the system they belong to: each method is one or two of its steps. */
  class Transport {
    var pending: map<Id, nat>
    var boxes: map<nat, seq<Reply>>
    var error: Option<Error>
    var done: bool
    ghost var system: System

    ghost predicate Valid()
      reads this
    {
      && Inv(system) && pending == system.pending && boxes == Boxes(system)
      && error == system.error && (done <==> system.reader == Finished)
    }

    constructor ()
      ensures Valid() && system == INIT
    {
      pending, boxes, error, done := map[], map[], None, false;
      system := INIT;
    }

    /** A send on a one-slot channel; it does not block because the slot is free. */
    method Send(channel: nat, reply: Reply)
      requires channel in boxes && boxes[channel] == []
      modifies this`boxes
      ensures boxes == old(boxes)[channel := [reply]]
    {
      assert [] + [reply] == [reply];
      boxes := boxes[channel := boxes[channel] + [reply]];
    }

    method RegisterCall(id: Id, channel: nat) returns (registered: bool)
      requires Valid() && channel !in boxes
      modifies this
      ensures Valid() && system == Registered(old(system), channel, id)
      ensures registered <==> !old(done)
      ensures boxes == old(boxes)[channel := []]
      ensures pending == if registered then old(pending)[id := channel] else old(pending)
    {
      RegisterTables(system, channel, id);
      RegisterKeeps(system, channel, id);
      registered := !done;
      boxes := boxes[channel := []];
      if registered {
        pending := pending[id := channel];
      }
      system := Registered(system, channel, id);
    }

    method RemovePending(id: Id)
      requires Valid()
      modifies this`pending, this`system
      ensures Valid() && system == Removed(old(system), id) && pending == old(pending) - {id}
    {
      RemovedKeeps(system, id);
      pending := pending - {id};
      system := Removed(system, id);
    }

    method Deliver(reply: Reply)
      requires Valid() && reply.FromServer? && system.reader == Reading
      modifies this`pending, this`boxes, this`system
      ensures Valid() && system == Pushed(Received(old(system), reply.id, reply.body))
      ensures pending == old(pending) - {reply.id}
      ensures boxes == if reply.id in old(pending) then old(boxes)[old(pending)[reply.id] := [reply]] else old(boxes)
    {
      InvMeansFree(system);
      DeliverTables(system, reply.id, reply.body);
      ReceiveKeeps(system, reply.id, reply.body);
      PushKeeps(Received(system, reply.id, reply.body));
      hide Inv, Boxes, Received, Pushed;
      if reply.id in pending {
        var channel := TakePending(reply.id);
        Send(channel, reply);
      }
      system := Pushed(Received(system, reply.id, reply.body));
    }

    method Fail(failure: Error)
      requires Valid() && system.reader == Reading
      modifies this`pending, this`boxes, this`error, this`system
      ensures Valid() && system == Drained(Apply(old(system), ReadFails(failure)))
      ensures pending == map[] && error == if old(error).None? then Some(failure) else old(error)
      ensures boxes == map k | k in old(boxes) ::
                if exists id :: id in old(pending) && old(pending)[id] == k then [Failure(failure)] else old(boxes)[k]
    {
      InvMeansFree(system);
      assert ReaderSound(system);
      FailTables(system, failure);
      StepKeeps(system, ReadFails(failure));
      DrainKeeps(Apply(system, ReadFails(failure)));
      assert system.error.None?;
      hide Inv, Boxes, Apply, Drained, WithFailures, Channels;
      if error.None? {
        error := Some(failure);
      }
      FailPending(failure);
      FailuresMean(old(boxes), old(pending), failure);
      system := Drained(Apply(system, ReadFails(failure)));
    }

    /** The reader's deferred close of the done channel. */
    method Finish()
      requires Valid() && system.reader == Leaving
      modifies this`done, this`system
      ensures Valid() && system == Apply(old(system), Step.Finish) && done
    {
      StepKeeps(system, Step.Finish);
      done := true;
      system := Apply(system, Step.Finish);
    }

    method FailPending(failure: Error)
      requires Free(pending, boxes)
      modifies this`pending, this`boxes
      ensures pending == map[]
      ensures boxes == WithFailures(old(boxes), Channels(old(pending)), failure)
    {
      ghost var failed: set<nat> := {};
      assert boxes == WithFailures(boxes, {}, failure);
      while pending.Keys != {}
        invariant Free(pending, boxes) && FailedSoFar(old(pending), pending, failed)
        invariant boxes == WithFailures(old(boxes), failed, failure)
        decreases |pending.Keys|
      {
        var id :| id in pending.Keys;
        OneMoreFailed(old(pending), pending, failed, id);
        var channel := FailOne(id, failure);
        OneMoreBox(old(boxes), failed, failure, channel);
        failed := failed + {channel};
      }
      AllFailed(old(pending), pending, failed);
    }

    method FailOne(id: Id, failure: Error) returns (channel: nat)
      requires Free(pending, boxes) && id in pending
      modifies this`pending, this`boxes
      ensures Free(pending, boxes) && pending == old(pending) - {id} && channel == old(pending)[id]
      ensures channel in old(boxes) && boxes == old(boxes)[channel := [Failure(failure)]]
      ensures |pending.Keys| < |old(pending).Keys|
    {
      channel := TakePending(id);
      Send(channel, Failure(failure));
    }

    method TakePending(id: Id) returns (channel: nat)
      requires Free(pending, boxes) && id in pending
      modifies this`pending
      ensures Free(pending, boxes) && pending == old(pending) - {id} && channel == old(pending)[id]
      ensures channel in boxes && boxes[channel] == [] && !IsPending(pending, channel)
      ensures |pending.Keys| < |old(pending).Keys|
    {
      channel := pending[id];
      pending := pending - {id};
      assert old(pending).Keys == pending.Keys + {id};
    }
  }
}
