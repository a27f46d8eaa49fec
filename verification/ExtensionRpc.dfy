/** The extension client's RPC connection: a reader that offers replies, and an end that happens once. */
module ExtensionRpc {
  import opened Wrappers

  type Error = nat

  datatype Reply = Reply(id: nat, body: nat)

  /** `Closed` always carries the error that ended the connection. */
  datatype Outcome = Answered(reply: Reply) | WriteFailed | Cancelled | Closed(failure: Option<Error>)

  datatype Phase = Writing | WriteBroken | Waiting | Returned(outcome: Outcome)

  /** A call with its one-slot channel; `offered` lists the replies offered to it before it returned. */
  datatype Call = Call(phase: Phase, box: seq<Reply>, offered: seq<Reply>)

  datatype Reader = Reading | Offering(reply: Reply) | Ended

  /** The once-only end: not begun, its error recorded, or the done channel closed. */
  datatype End = Open | Recorded | Complete

  datatype System = System(
    next: nat, calls: map<nat, Call>, pending: set<nat>, reader: Reader,
    end: End, failure: Option<Error>, errors: seq<Error>, closes: nat)

  const INIT := System(1, map[], {}, Reading, Open, None, [], 0)

  datatype Step =
    | Start
    | Write(id: nat, ok: bool)
    | TakeReply(id: nat)
    | GiveUp(id: nat)
    | SeeDone(id: nat)
    | SeeBroken(id: nat)
    | Find(reply: Reply)
    | Offer
    | StopReading
    | BeginFinish(error: Error)
    | CloseDone

  predicate Done(s: System) {
    s.end == Complete
  }

  predicate InPhase(s: System, id: nat, phase: Phase) {
    id in s.calls && s.calls[id].phase == phase
  }

  function Moved(s: System, id: nat, phase: Phase): System
    requires id in s.calls
  {
    s.(calls := s.calls[id := s.calls[id].(phase := phase)])
  }

  /** A call returns and its deferred unregistering runs. */
  function Finished(s: System, id: nat, outcome: Outcome): System
    requires id in s.calls
  {
    Moved(s, id, Returned(outcome)).(pending := s.pending - {id})
  }

  function Started(s: System): System {
    var id := s.next;
    if Done(s) then s.(next := id + 1, calls := s.calls[id := Call(Returned(Closed(s.failure)), [], [])])
    else s.(next := id + 1, calls := s.calls[id := Call(Writing, [], [])], pending := s.pending + {id})
  }

  function Answering(s: System, id: nat): System
    requires id in s.calls && s.calls[id].box != []
  {
    var c := s.calls[id];
    s.(calls := s.calls[id := c.(phase := Returned(Answered(c.box[0])), box := c.box[1..])],
       pending := s.pending - {id})
  }

  /** The done branch looks into the channel once more before it gives the connection's error. */
  function SawDone(s: System, id: nat): System {
    if !InPhase(s, id, Waiting) || !Done(s) then s
    else if s.calls[id].box != [] then Answering(s, id)
    else Finished(s, id, Closed(s.failure))
  }

  /** A send that does not block: a full channel drops the reply. */
  function Offered(s: System): System {
    if s.reader.Offering? && s.reader.reply.id in s.calls then
      var r := s.reader.reply;
      var c := s.calls[r.id];
      s.(reader := Reading,
         calls := s.calls[r.id := Call(
           c.phase,
           if c.box == [] then [r] else c.box,
           if c.phase.Returned? then c.offered else c.offered + [r])])
    else s
  }

  function Apply(s: System, step: Step): System {
    match step
    case Start => Started(s)
    case Write(id, ok) => if InPhase(s, id, Writing) then Moved(s, id, if ok then Waiting else WriteBroken) else s
    case TakeReply(id) => if InPhase(s, id, Waiting) && s.calls[id].box != [] then Answering(s, id) else s
    case GiveUp(id) => if InPhase(s, id, Waiting) then Finished(s, id, Cancelled) else s
    case SeeDone(id) => SawDone(s, id)
    case SeeBroken(id) => if InPhase(s, id, WriteBroken) && Done(s) then Finished(s, id, WriteFailed) else s
    case Find(reply) => if s.reader == Reading && reply.id in s.pending then s.(reader := Offering(reply)) else s
    case Offer => Offered(s)
    case StopReading => if s.reader == Reading then s.(reader := Ended) else s
    case BeginFinish(e) =>
      if s.end == Open then s.(end := Recorded, failure := Some(e), errors := s.errors + [e])
      else s.(errors := s.errors + [e])
    case CloseDone => if s.end == Recorded then s.(end := Complete, closes := s.closes + 1) else s
  }

  function Exec(steps: seq<Step>): System {
    if steps == [] then INIT else Apply(Exec(steps[..|steps| - 1]), steps[|steps| - 1])
  }

  // ---- What every step keeps ----

  predicate CallSound(s: System, id: nat, c: Call) {
    && |c.box| <= 1
    && (forall i :: 0 <= i < |c.box| ==> c.box[i].id == id)
    && (forall i :: 0 <= i < |c.offered| ==> c.offered[i].id == id)
    && (!c.phase.Returned? ==> c.box == if c.offered == [] then [] else [c.offered[0]])
    && (c.phase.Returned? && c.phase.outcome.Answered? ==> c.offered != [] && c.phase.outcome.reply == c.offered[0])
    && (c.phase.Returned? && c.phase.outcome.Closed? ==>
          c.offered == [] && Done(s) && c.phase.outcome.failure == s.failure)
  }

  ghost predicate CallsSound(s: System) {
    forall id :: id in s.calls ==> id < s.next && CallSound(s, id, s.calls[id])
  }

  predicate EndSound(s: System) {
    && (s.end == Open <==> s.failure.None?)
    && (s.end == Open <==> s.errors == [])
    && (s.failure.Some? ==> s.errors != [] && s.failure.value == s.errors[0])
    && s.closes == (if s.end == Complete then 1 else 0)
  }

  ghost predicate Inv(s: System) {
    && CallsSound(s) && EndSound(s)
    && (forall id :: id in s.pending ==> id in s.calls)
    && (s.reader.Offering? ==> s.reader.reply.id in s.calls)
  }

  /** A call whose channel nobody touches, while the end only moves forward. */
  lemma CallStays(s: System, after: System, id: nat, c: Call)
    requires CallSound(s, id, c) && (Done(s) ==> Done(after) && after.failure == s.failure)
    ensures CallSound(after, id, c)
  {
  }

  lemma OfferKeepsCall(s: System, id: nat)
    requires CallsSound(s) && id in s.calls
    ensures CallSound(Offered(s), id, Offered(s).calls[id])
  {
  }

  lemma AnsweringKeepsCall(s: System, id: nat, other: nat)
    requires CallsSound(s) && InPhase(s, id, Waiting) && s.calls[id].box != [] && other in s.calls
    ensures CallSound(Answering(s, id), other, Answering(s, id).calls[other])
  {
  }

  lemma FinishedKeepsCall(s: System, id: nat, outcome: Outcome, other: nat)
    requires CallsSound(s) && id in s.calls && other in s.calls
    requires CallSound(s, id, s.calls[id].(phase := Returned(outcome)))
    ensures CallSound(Finished(s, id, outcome), other, Finished(s, id, outcome).calls[other])
  {
  }

  lemma SawDoneKeepsCall(s: System, id: nat, other: nat)
    requires CallsSound(s) && other in s.calls
    ensures CallSound(SawDone(s, id), other, SawDone(s, id).calls[other])
  {
  }

  lemma StepKeepsOldCall(s: System, step: Step, id: nat)
    requires CallsSound(s) && EndSound(s) && id in s.calls
    ensures CallSound(Apply(s, step), id, Apply(s, step).calls[id])
  {
    assert CallSound(s, id, s.calls[id]) && id < s.next;
    match step
    case TakeReply(k) =>
      if InPhase(s, k, Waiting) && s.calls[k].box != [] {
        AnsweringKeepsCall(s, k, id);
      }
    case GiveUp(k) =>
      if InPhase(s, k, Waiting) {
        assert CallSound(s, k, s.calls[k]);
        FinishedKeepsCall(s, k, Cancelled, id);
      }
    case SeeBroken(k) =>
      if InPhase(s, k, WriteBroken) && Done(s) {
        assert CallSound(s, k, s.calls[k]);
        FinishedKeepsCall(s, k, WriteFailed, id);
      }
    case SeeDone(k) => SawDoneKeepsCall(s, k, id);
    case Offer => OfferKeepsCall(s, id);
    case Write(k, ok) =>
    case _ => CallStays(s, Apply(s, step), id, s.calls[id]);
  }

  lemma StepKeepsCall(s: System, step: Step, id: nat)
    requires CallsSound(s) && EndSound(s) && id in Apply(s, step).calls
    ensures id < Apply(s, step).next && CallSound(Apply(s, step), id, Apply(s, step).calls[id])
  {
    if id in s.calls {
      StepKeepsOldCall(s, step, id);
    }
  }

  lemma StepKeepsEnd(s: System, step: Step)
    requires EndSound(s)
    ensures EndSound(Apply(s, step))
  {
  }

  lemma StepKeepsTables(s: System, step: Step)
    requires Inv(s)
    ensures forall id :: id in Apply(s, step).pending ==> id in Apply(s, step).calls
    ensures Apply(s, step).reader.Offering? ==> Apply(s, step).reader.reply.id in Apply(s, step).calls
  {
  }

  lemma StepKeeps(s: System, step: Step)
    requires Inv(s)
    ensures Inv(Apply(s, step))
  {
    StepKeepsEnd(s, step);
    StepKeepsTables(s, step);
    forall id | id in Apply(s, step).calls
      ensures id < Apply(s, step).next && CallSound(Apply(s, step), id, Apply(s, step).calls[id])
    {
      StepKeepsCall(s, step, id);
    }
  }

  lemma {:induction false} Reachable(steps: seq<Step>)
    ensures Inv(Exec(steps))
  {
    if steps != [] {
      Reachable(steps[..|steps| - 1]);
      StepKeeps(Exec(steps[..|steps| - 1]), steps[|steps| - 1]);
    }
  }

  /** A call takes at most one reply: the first that was offered to it, and it carries the call's own id. */
  lemma CallTakesItsFirstReply(steps: seq<Step>, id: nat)
    requires id in Exec(steps).calls && Exec(steps).calls[id].phase.Returned?
    requires Exec(steps).calls[id].phase.outcome.Answered?
    ensures
      var c := Exec(steps).calls[id];
      c.offered != [] && c.phase.outcome.reply == c.offered[0] && c.phase.outcome.reply.id == id
  {
    Reachable(steps);
    assert CallSound(Exec(steps), id, Exec(steps).calls[id]);
  }

  /** A call that ends with the connection's error was offered no reply before, and the error is there. */
  lemma ReplyWinsOverTheEnd(steps: seq<Step>, id: nat)
    requires id in Exec(steps).calls && Exec(steps).calls[id].phase.Returned?
    requires Exec(steps).calls[id].phase.outcome.Closed?
    ensures Exec(steps).calls[id].offered == [] && Exec(steps).calls[id].phase.outcome.failure.Some?
  {
    Reachable(steps);
    assert CallSound(Exec(steps), id, Exec(steps).calls[id]);
  }

  /** Once the connection is done a waiting call returns, with its reply exactly if one was offered. */
  lemma WaitingCallReturns(steps: seq<Step>, id: nat)
    requires Done(Exec(steps)) && InPhase(Exec(steps), id, Waiting)
    ensures
      var c := Exec(steps).calls[id];
      var after := Apply(Exec(steps), SeeDone(id)).calls[id].phase;
      after == Returned(if c.offered != [] then Answered(c.offered[0]) else Closed(Exec(steps).failure))
  {
    Reachable(steps);
    assert CallSound(Exec(steps), id, Exec(steps).calls[id]);
  }

  lemma {:induction false} InFlightIsPending(steps: seq<Step>, id: nat)
    requires id in Exec(steps).calls && !Exec(steps).calls[id].phase.Returned?
    ensures id in Exec(steps).pending
  {
    if steps != [] {
      var n := |steps| - 1;
      Reachable(steps[..n]);
      if id in Exec(steps[..n]).calls && !Exec(steps[..n]).calls[id].phase.Returned? {
        InFlightIsPending(steps[..n], id);
      }
      StaysPending(Exec(steps[..n]), steps[n], id);
    }
  }

  lemma StaysPending(s: System, step: Step, id: nat)
    requires id in s.calls && !s.calls[id].phase.Returned? ==> id in s.pending
    requires id in Apply(s, step).calls && !Apply(s, step).calls[id].phase.Returned?
    ensures id in Apply(s, step).pending
  {
  }

  lemma OfferTaken(s: System, id: nat, reply: Reply)
    requires Inv(s) && InPhase(s, id, Waiting) && s.reader == Reading && id in s.pending && reply.id == id
    ensures
      var after := Apply(Apply(Apply(s, Find(reply)), Offer), TakeReply(id));
      && after.calls.Keys == s.calls.Keys && after.pending == s.pending - {id} && after.reader == Reading
      && after.calls[id].phase ==
        Returned(Answered(if s.calls[id].offered == [] then reply else s.calls[id].offered[0]))
      && forall k :: k in s.calls && k != id ==> after.calls[k] == s.calls[k]
  {
    assert CallSound(s, id, s.calls[id]);
  }

  lemma OneMoreStep(steps: seq<Step>, step: Step)
    ensures Exec(steps + [step]) == Apply(Exec(steps), step)
  {
  }

  /**
   While the reader reads, a waiting call returns with the reply that comes with its id, or with an earlier one that
   it has not taken yet; it is unregistered, and no other call is touched.
   */
  lemma ReplyReachesItsCall(steps: seq<Step>, id: nat, reply: Reply)
    requires InPhase(Exec(steps), id, Waiting) && Exec(steps).reader == Reading && reply.id == id
    ensures
      var s := Exec(steps);
      var after := Exec(steps + [Find(reply)] + [Offer] + [TakeReply(id)]);
      && after.calls.Keys == s.calls.Keys && after.pending == s.pending - {id} && after.reader == Reading
      && after.calls[id].phase ==
        Returned(Answered(if s.calls[id].offered == [] then reply else s.calls[id].offered[0]))
      && forall k :: k in s.calls && k != id ==> after.calls[k] == s.calls[k]
  {
    Reachable(steps);
    InFlightIsPending(steps, id);
    OfferTaken(Exec(steps), id, reply);
    hide *;
    OneMoreStep(steps, Find(reply));
    OneMoreStep(steps + [Find(reply)], Offer);
    OneMoreStep(steps + [Find(reply)] + [Offer], TakeReply(id));
  }

  /** The connection ends once: the done channel is closed at most once, and the first error stays. */
  lemma EndsOnce(steps: seq<Step>)
    ensures Exec(steps).closes <= 1
    ensures Exec(steps).errors != [] ==> Exec(steps).failure == Some(Exec(steps).errors[0])
  {
    Reachable(steps);
  }

  // ---- The connection's own tables ----

  lemma UnregisterKeeps(s: System, id: nat)
    requires Inv(s)
    ensures Inv(s.(pending := s.pending - {id}))
  {
    var after := s.(pending := s.pending - {id});
    forall k | k in after.calls
      ensures k < after.next && CallSound(after, k, after.calls[k])
    {
      CallStays(s, after, k, s.calls[k]);
    }
  }

  /** The fields of the connection, with the system they belong to. */
  class Connection {
    var nextId: nat
    var pending: map<nat, nat>
    var failure: Option<Error>
    var finished: bool
    var done: bool
    ghost var system: System

    /** `finished` is the once-only guard, set before the error is recorded and the done channel is closed. */
    ghost predicate Valid()
      reads this
    {
      && Inv(system) && nextId == system.next && pending.Keys == system.pending && failure == system.failure
      && (finished <==> system.end != Open) && (done <==> Done(system))
    }

    constructor ()
      ensures Valid() && system == INIT
    {
      nextId, pending, failure, finished, done := 1, map[], None, false, false;
      system := INIT;
    }

    /** A new call's id and channel are registered, or the connection's error is given. */
    method Register(channel: nat) returns (id: nat, refused: Option<Error>)
      requires Valid()
      modifies this`nextId, this`pending, this`system
      ensures Valid() && id == old(nextId) && system == Apply(old(system), Start)
      ensures (refused.Some? <==> done) && (done ==> refused == failure)
      ensures pending == if done then old(pending) else old(pending)[id := channel]
      ensures refused.Some? ==> system.calls[id].phase == Returned(Closed(refused))
    {
      StepKeeps(system, Start);
      id := nextId;
      nextId := nextId + 1;
      system := Apply(system, Start);
      if done {
        return id, failure;
      }
      pending := pending[id := channel];
      return id, None;
    }

    method Unregister(id: nat)
      requires Valid()
      modifies this`pending, this`system
      ensures Valid() && pending == old(pending) - {id}
      ensures system == old(system).(pending := old(system).pending - {id})
    {
      UnregisterKeeps(system, id);
      pending := pending - {id};
      system := system.(pending := system.pending - {id});
    }

    /** Only the first call records its error and closes the done channel; no call is inside when another begins. */
    method Finish(error: Error)
      requires Valid() && done == finished
      modifies this`failure, this`finished, this`done, this`system
      ensures Valid() && done && system == Apply(Apply(old(system), BeginFinish(error)), CloseDone)
      ensures failure == if old(done) then old(failure) else Some(error)
    {
      StepKeeps(system, BeginFinish(error));
      StepKeeps(Apply(system, BeginFinish(error)), CloseDone);
      if !finished {
        finished := true;
        failure := Some(error);
        done := true;
      }
      system := Apply(Apply(system, BeginFinish(error)), CloseDone);
    }
  }
}
