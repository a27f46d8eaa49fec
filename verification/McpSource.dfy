/** The cache of MCP client pools, one per conversation, with its double-checked creation. */
module McpSource {
  import opened McpClient
  import opened Wrappers

  datatype Entry = Entry(fingerprint: string, pool: nat)

  /** A Resolve call between two of its lock sections. */
  datatype Op =
    | Creating(key: string, fingerprint: string)
    | Holding(key: string, fingerprint: string, pool: nat)
    | Closing(pool: nat)
    | Over

  /** `taken` are the pools that Close has collected and not closed yet. */
  datatype Source = Source(
    closed: bool,
    entries: map<string, Entry>,
    ops: seq<Op>,
    taken: set<nat>,
    pools: nat,
    closeCalls: seq<nat>)

  datatype Step =
    | Lookup(key: string, fingerprint: string)
    | Created(op: nat)
    | CreateFailed(op: nat)
    | Publish(op: nat)
    | ClosePool(op: nat)
    | BeginClose
    | CloseTaken(pool: nat)

  const EMPTY := Source(false, map[], [], {}, 0, [])

  predicate Cached(entries: map<string, Entry>, key: string, fingerprint: string) {
    key in entries && entries[key].fingerprint == fingerprint
  }

  predicate Refuses(closed: bool, entries: map<string, Entry>, key: string, candidate: Entry) {
    closed || Cached(entries, key, candidate.fingerprint)
  }

  /** The pool that is left to be closed when `candidate` is published: itself, or the one it replaces. */
  function Surplus(closed: bool, entries: map<string, Entry>, key: string, candidate: Entry): Option<nat> {
    if Refuses(closed, entries, key, candidate) then Some(candidate.pool)
    else if key in entries then Some(entries[key].pool)
    else None
  }

  function Published(closed: bool, entries: map<string, Entry>, key: string, candidate: Entry): map<string, Entry> {
    if Refuses(closed, entries, key, candidate) then entries else entries[key := candidate]
  }

  function PoolsOf(entries: map<string, Entry>): set<nat> {
    set key | key in entries :: entries[key].pool
  }

  /** The fields of the source's `MCPSource` and its lock sections. */
  class Cache {
    var entries: map<string, Entry>
    var closed: bool

    constructor ()
      ensures entries == map[] && !closed
    {
      entries, closed := map[], false;
    }

    method Lookup(key: string, fingerprint: string) returns (refused: bool, hit: Option<Entry>)
      ensures refused <==> closed
      ensures hit.Some? <==> !closed && key in entries && entries[key].fingerprint == fingerprint
      ensures hit.Some? ==> hit.value == entries[key] && Cached(entries, key, fingerprint)
    {
      if closed {
        return true, None;
      }
      if key in entries && entries[key].fingerprint == fingerprint {
        return false, Some(entries[key]);
      }
      return false, None;
    }

    method Publish(key: string, candidate: Entry) returns (toClose: Option<nat>)
      modifies this
      ensures toClose == Surplus(old(closed), old(entries), key, candidate)
      ensures entries == Published(old(closed), old(entries), key, candidate) && closed == old(closed)
      ensures
        var known := key in old(entries) && old(entries)[key].fingerprint == candidate.fingerprint;
        if old(closed) || known then toClose == Some(candidate.pool) && entries == old(entries)
        else
          && entries == old(entries)[key := candidate]
          && toClose == if key in old(entries) then Some(old(entries)[key].pool) else None
    {
      if closed {
        return Some(candidate.pool);
      }
      if key in entries && entries[key].fingerprint == candidate.fingerprint {
        return Some(candidate.pool);
      }
      toClose := if key in entries then Some(entries[key].pool) else None;
      entries := entries[key := candidate];
    }

    method Close() returns (taken: set<nat>)
      modifies this
      ensures closed
      ensures entries == if old(closed) then old(entries) else map[]
      ensures taken == if old(closed) then {} else set key | key in old(entries) :: old(entries)[key].pool
    {
      if closed {
        return {};
      }
      closed := true;
      taken := set key | key in entries :: entries[key].pool;
      entries := map[];
    }
  }

  predicate At(s: Source, op: nat) {
    op < |s.ops|
  }

  /** The second lock section of Resolve: the pool is published, or left to be closed. */
  function PublishStep(s: Source, op: nat): Source
    requires At(s, op) && s.ops[op].Holding?
  {
    var Holding(key, fingerprint, pool) := s.ops[op];
    var surplus := Surplus(s.closed, s.entries, key, Entry(fingerprint, pool));
    s.(entries := Published(s.closed, s.entries, key, Entry(fingerprint, pool)),
       ops := s.ops[op := if surplus.Some? then Closing(surplus.value) else Over])
  }

  function Apply(s: Source, step: Step): Source {
    match step
    case Lookup(key, fingerprint) =>
      if s.closed || Cached(s.entries, key, fingerprint) then s
      else s.(ops := s.ops + [Creating(key, fingerprint)])
    case Created(op) =>
      if At(s, op) && s.ops[op].Creating?
      then s.(ops := s.ops[op := Holding(s.ops[op].key, s.ops[op].fingerprint, s.pools)], pools := s.pools + 1) else s
    case CreateFailed(op) =>
      if At(s, op) && s.ops[op].Creating? then s.(ops := s.ops[op := Over]) else s
    case Publish(op) =>
      if At(s, op) && s.ops[op].Holding? then PublishStep(s, op) else s
    case ClosePool(op) =>
      if At(s, op) && s.ops[op].Closing?
      then s.(ops := s.ops[op := Over], closeCalls := s.closeCalls + [s.ops[op].pool]) else s
    case BeginClose =>
      if s.closed then s
      else s.(closed := true, entries := map[], taken := PoolsOf(s.entries))
    case CloseTaken(pool) =>
      if pool in s.taken then s.(taken := s.taken - {pool}, closeCalls := s.closeCalls + [pool]) else s
  }

  function Exec(steps: seq<Step>): Source {
    if steps == [] then EMPTY else Apply(Exec(steps[..|steps| - 1]), steps[|steps| - 1])
  }

  datatype Place = WithCall(op: nat) | InEntry(key: string) | WithCloser | Closed(call: nat)

  predicate Has(s: Source, place: Place, pool: nat) {
    match place
    case WithCall(op) =>
      At(s, op) && ((s.ops[op].Holding? && s.ops[op].pool == pool) || s.ops[op] == Closing(pool))
    case InEntry(key) => key in s.entries && s.entries[key].pool == pool
    case WithCloser => pool in s.taken
    case Closed(call) => call < |s.closeCalls| && s.closeCalls[call] == pool
  }

  /** Every pool is in exactly one place, `owner[pool]`. */
  ghost predicate Owned(s: Source, owner: seq<Place>) {
    && |owner| == s.pools
    && (forall pool: nat :: pool < s.pools ==> Has(s, owner[pool], pool))
    && (forall place, pool: nat :: Has(s, place, pool) ==> pool < s.pools && owner[pool] == place)
    && (s.closed ==> s.entries == map[]) && (!s.closed ==> s.taken == {})
  }

  ghost predicate Moves(s: Source, t: Source, moves: map<nat, (Place, Place)>) {
    && t.pools == s.pools && (t.closed ==> t.entries == map[]) && (!t.closed ==> t.taken == {})
    && (forall pool :: pool in moves ==> Has(s, moves[pool].0, pool))
    && (forall place, pool: nat :: Has(t, place, pool) <==>
                                   || (pool in moves && place == moves[pool].1)
                                   || (Has(s, place, pool) && !(pool in moves && place == moves[pool].0)))
  }

  lemma MovesKeepOwned(s: Source, t: Source, owner: seq<Place>, moves: map<nat, (Place, Place)>)
    returns (owner': seq<Place>)
    requires Owned(s, owner) && Moves(s, t, moves)
    ensures Owned(t, owner')
  {
    owner' := seq(|owner|, i requires 0 <= i < |owner| => if i in moves then moves[i].1 else owner[i]);
  }

  lemma PublishMoves(s: Source, op: nat, owner: seq<Place>) returns (moves: map<nat, (Place, Place)>)
    requires Owned(s, owner) && At(s, op) && s.ops[op].Holding?
    ensures Moves(s, PublishStep(s, op), moves)
  {
    var Holding(key, fingerprint, pool) := s.ops[op];
    assert Has(s, WithCall(op), pool);
    if Refuses(s.closed, s.entries, key, Entry(fingerprint, pool)) {
      moves := map[];
    } else {
      moves := map[pool := (WithCall(op), InEntry(key))];
      if key in s.entries {
        assert Has(s, InEntry(key), s.entries[key].pool);
        moves := moves[s.entries[key].pool := (InEntry(key), WithCall(op))];
      }
    }
  }

  lemma BeginCloseMoves(s: Source, owner: seq<Place>) returns (moves: map<nat, (Place, Place)>)
    requires Owned(s, owner) && !s.closed
    ensures Moves(s, Apply(s, BeginClose), moves)
  {
    var t := Apply(s, BeginClose);
    forall pool | pool in t.taken
      ensures pool < s.pools && owner[pool].InEntry?
    {
      var key :| key in s.entries && s.entries[key].pool == pool;
      assert Has(s, InEntry(key), pool);
    }
    moves := map pool | pool in t.taken :: (owner[pool], WithCloser);
    forall place, pool: nat | Has(s, place, pool) && place.InEntry?
      ensures pool in t.taken
    {
    }
  }

  lemma CloseCallMoves(s: Source, step: Step, owner: seq<Place>) returns (moves: map<nat, (Place, Place)>)
    requires Owned(s, owner) && (step.ClosePool? || step.CloseTaken?)
    ensures Moves(s, Apply(s, step), moves)
  {
    var closed := Closed(|s.closeCalls|);
    moves := map[];
    if step.ClosePool? && At(s, step.op) && s.ops[step.op].Closing? {
      assert Has(s, WithCall(step.op), s.ops[step.op].pool);
      moves := map[s.ops[step.op].pool := (WithCall(step.op), closed)];
    }
    if step.CloseTaken? && step.pool in s.taken {
      assert Has(s, WithCloser, step.pool);
      moves := map[step.pool := (WithCloser, closed)];
    }
  }

  lemma StepOwned(s: Source, step: Step, owner: seq<Place>) returns (owner': seq<Place>)
    requires Owned(s, owner)
    ensures Owned(Apply(s, step), owner')
  {
    var moves: map<nat, (Place, Place)> := map[];
    if step.Created? && At(s, step.op) && s.ops[step.op].Creating? {
      owner' := owner + [WithCall(step.op)];
      assert forall place, pool: nat ::
          Has(Apply(s, step), place, pool) <==> (pool == s.pools && place == WithCall(step.op)) || Has(s, place, pool);
      return;
    }
    if step.Publish? && At(s, step.op) && s.ops[step.op].Holding? {
      moves := PublishMoves(s, step.op, owner);
    } else if step.BeginClose? && !s.closed {
      moves := BeginCloseMoves(s, owner);
    } else if step.ClosePool? || step.CloseTaken? {
      moves := CloseCallMoves(s, step, owner);
    }
    owner' := MovesKeepOwned(s, Apply(s, step), owner, moves);
  }

  lemma {:induction false} Reachable(steps: seq<Step>) returns (owner: seq<Place>)
    ensures Owned(Exec(steps), owner)
  {
    if steps == [] {
      owner := [];
    } else {
      owner := Reachable(steps[..|steps| - 1]);
      owner := StepOwned(Exec(steps[..|steps| - 1]), steps[|steps| - 1], owner);
    }
  }

  /** Every pool is in exactly one place: with a call, cached, with Close, or closed by exactly one call. */
  lemma ExactlyOnePlace(steps: seq<Step>, pool: nat)
    requires pool < Exec(steps).pools
    ensures exists place :: Has(Exec(steps), place, pool) &&
                            forall other :: Has(Exec(steps), other, pool) ==> other == place
  {
    var owner := Reachable(steps);
    assert Has(Exec(steps), owner[pool], pool);
  }

  /** After Close has closed what it took, a pool is open exactly while a Resolve call holds it. */
  lemma AfterClose(steps: seq<Step>, pool: nat)
    requires Exec(steps).closed && Exec(steps).taken == {} && pool < Exec(steps).pools
    ensures Exec(steps).entries == map[]
    ensures pool !in Exec(steps).closeCalls <==> exists op :: Has(Exec(steps), WithCall(op), pool)
  {
    var s := Exec(steps);
    var owner := Reachable(steps);
    assert Has(s, owner[pool], pool);
    if pool in s.closeCalls {
      var call: nat :| call < |s.closeCalls| && s.closeCalls[call] == pool;
      assert Has(s, Closed(call), pool);
    } else {
      assert owner[pool].WithCall?;
      assert Has(s, WithCall(owner[pool].op), pool);
    }
  }
}
