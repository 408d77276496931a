/** The resource protocol of internal/gateway/spawn.go over the allocator of
    internal/netmgr and the source-IP registry of internal/proxy/registry.go.

    Any number of spawns and cleanups interleave; each event below is one
    store, registry, allocator or kernel call of one spawn. */
module Sandboxes {
  import opened Netmgr

  datatype Identity = Identity(server: string, tenant: string)

  datatype Op = CloseSession | DeleteVeth | Unbind | Free | Kill

  /** Where one SpawnEgressBackend call, and later its Cleanup closure, stands. */
  datatype Phase =
    | Fresh
    | Refused                              // architecture mismatch: nothing acquired
    | Allocated(k: nat)                    // subnet k taken, process not started
    | Started(k: nat)                      // bwrap running
    | Wired(k: nat)                        // veth pair created
    | Bound(k: nat)                        // source IP registered
    | Up(k: nat)                           // returned to the caller
    | Unwinding(k: nat, todo: seq<Op>)     // releases still to run, in order
  {
    /** The releases the code runs from here on if it gives up at this point. */
    function Teardown(): seq<Op> {
      match this
      case Fresh => []
      case Refused => []
      case Allocated(_) => [Free]
      case Started(_) => [Free, Kill]
      case Wired(_) => [DeleteVeth, Free, Kill]
      case Bound(_) => [DeleteVeth, Unbind, Free, Kill]
      case Up(_) => [CloseSession, DeleteVeth, Unbind, Free, Kill]
      case Unwinding(_, todo) => todo
    }

    /** A resource is held from its acquisition until its release has run. */
    predicate Owes(op: Op) { op in Teardown() }

    predicate HasIndex() { !Fresh? && !Refused? }

    predicate Spawning() { Allocated? || Started? || Wired? || Bound? }
  }

  datatype Actor = Actor(id: Identity, phase: Phase, cleanups: nat)

  datatype State = State(base: U32, used: set<nat>, registry: map<U32, Identity>,
                         veths: set<nat>, alive: set<nat>, actors: seq<Actor>)

  datatype Event =
    | Refuse(a: nat)
    | Allocate(a: nat, k: nat)
    | Start(a: nat)
    | Wire(a: nat)
    | Bind(a: nat)
    | Connect(a: nat)
    | Fail(a: nat)       // the current step failed: run the releases for this point
    | Cleanup(a: nat)    // the returned closure is called
    | Undo(a: nat)       // the next release of a failure path or cleanup runs

  function Lookup(s: State, ip: U32): (r: (bool, Identity)) {
    if ip in s.registry then (true, s.registry[ip]) else (false, Identity("", ""))
  }

  ghost predicate Enabled(s: State, e: Event) {
    && e.a < |s.actors|
    && var ph := s.actors[e.a].phase;
       match e
       case Refuse(_) => ph.Fresh?
       case Allocate(_, k) => ph.Fresh? && LeastFree(s.used, k)
       case Start(_) => ph.Allocated?
       case Wire(_) => ph.Started?
       case Bind(_) => ph.Wired?
       case Connect(_) => ph.Bound?
       case Fail(_) => ph.Spawning()
       case Cleanup(a) => ph.Up? || (ph.Unwinding? && ph.todo == [] && s.actors[a].cleanups > 0)
       case Undo(_) => ph.Unwinding? && ph.todo != []
  }

  function Goto(s: State, a: nat, ph: Phase): State
    requires a < |s.actors|
  {
    s.(actors := s.actors[a := s.actors[a].(phase := ph)])
  }

  function Release(s: State, a: nat, k: nat, op: Op): State {
    match op
    case CloseSession => s
    case DeleteVeth => s.(veths := s.veths - {k})
    case Unbind => s.(registry := s.registry - {SandboxIP(s.base, k)})
    case Free => s.(used := s.used - {k})
    case Kill => s.(alive := s.alive - {a})
  }

  ghost function Step(s: State, e: Event): State
    requires Enabled(s, e)
  {
    var a := e.a;
    var me := s.actors[a];
    match e
    case Refuse(_) => Goto(s, a, Refused)
    case Allocate(_, k) => Goto(s.(used := s.used + {k}), a, Allocated(k))
    case Start(_) => Goto(s.(alive := s.alive + {a}), a, Started(me.phase.k))
    case Wire(_) => Goto(s.(veths := s.veths + {me.phase.k}), a, Wired(me.phase.k))
    case Bind(_) => Goto(s.(registry := s.registry[SandboxIP(s.base, me.phase.k) := me.id]), a, Bound(me.phase.k))
    case Connect(_) => Goto(s, a, Up(me.phase.k))
    case Fail(_) => Goto(s, a, Unwinding(me.phase.k, me.phase.Teardown()))
    case Cleanup(_) => CallCleanup(s, a)
    case Undo(_) => Goto(Release(s, a, me.phase.k, me.phase.todo[0]), a, Unwinding(me.phase.k, me.phase.todo[1..]))
  }

  function CallCleanup(s: State, a: nat): State
    requires a < |s.actors| && s.actors[a].phase.HasIndex()
  {
    var me := s.actors[a];
    s.(actors := s.actors[a := Actor(me.id, Unwinding(me.phase.k, Up(me.phase.k).Teardown()), me.cleanups + 1)])
  }

  // ----- the invariant -----

  /** Releases run once each, and the index is freed only after the veth and
      the registry entry that name it are gone. */
  ghost predicate Ordered(todo: seq<Op>) {
    todo != [] ==>
      && todo[0] !in todo[1..]
      && (Unbind in todo || DeleteVeth in todo ==> Free in todo)
      && Ordered(todo[1..])
  }

  predicate Owes(s: State, a: nat, op: Op) {
    a < |s.actors| && s.actors[a].phase.Owes(op)
  }

  function Index(s: State, a: nat): nat
    requires a < |s.actors|
  {
    if s.actors[a].phase.HasIndex() then s.actors[a].phase.k else 0
  }

  ghost predicate Ordering(s: State) {
    forall a :: 0 <= a < |s.actors| ==> Ordered(s.actors[a].phase.Teardown())
  }

  ghost predicate Indices(s: State, limit: nat) {
    && (forall a: nat :: Owes(s, a, Free) ==> Index(s, a) in s.used && Index(s, a) < limit)
    && (forall a: nat, b: nat :: Owes(s, a, Free) && Owes(s, b, Free) && Index(s, a) == Index(s, b) ==> a == b)
    && (forall k :: k in s.used ==> exists a: nat :: Owes(s, a, Free) && Index(s, a) == k)
  }

  ghost predicate Bindings(s: State) {
    && (forall a: nat :: Owes(s, a, Unbind) ==>
         SandboxIP(s.base, Index(s, a)) in s.registry && s.registry[SandboxIP(s.base, Index(s, a))] == s.actors[a].id)
    && (forall ip :: ip in s.registry ==> exists a: nat :: Owes(s, a, Unbind) && SandboxIP(s.base, Index(s, a)) == ip)
  }

  ghost predicate Veths(s: State) {
    && (forall a: nat :: Owes(s, a, DeleteVeth) ==> Index(s, a) in s.veths)
    && (forall k :: k in s.veths ==> exists a: nat :: Owes(s, a, DeleteVeth) && Index(s, a) == k)
  }

  ghost predicate Processes(s: State) {
    forall a: nat :: a in s.alive <==> Owes(s, a, Kill)
  }

  ghost predicate Inv(s: State, limit: nat) {
    Ordering(s) && Indices(s, limit) && Bindings(s) && Veths(s) && Processes(s)
  }

  ghost predicate Init(s: State) {
    && s.used == {} && s.registry == map[] && s.veths == {} && s.alive == {}
    && forall a :: 0 <= a < |s.actors| ==> s.actors[a].phase.Fresh? && s.actors[a].cleanups == 0
  }

  /** What the callers of this protocol must respect: a bound on the number of
      live subnets, and no second call of one backend's Cleanup. */
  ghost predicate Disciplined(s: State, e: Event, limit: nat)
    requires Enabled(s, e)
  {
    && (e.Allocate? ==> |s.used| < limit)
    && (e.Cleanup? ==> s.actors[e.a].phase.Up?)
  }

  ghost predicate Run(s: State, es: seq<Event>, t: State, limit: nat)
    decreases |es|
  {
    if es == [] then s == t
    else Enabled(s, es[0]) && Disciplined(s, es[0], limit) && Run(Step(s, es[0]), es[1..], t, limit)
  }

  // ----- every event does nothing, gains one resource, or loses one -----

  /** Only actor `a` moved, and it keeps its identity and its index. */
  ghost predicate OnlyMoves(s: State, t: State, a: nat) {
    && a < |s.actors| == |t.actors|
    && t.base == s.base
    && (forall b :: 0 <= b < |s.actors| && b != a ==> t.actors[b] == s.actors[b])
    && t.actors[a].id == s.actors[a].id
    && (Owes(s, a, Free) ==> Index(t, a) == Index(s, a))
    && Ordered(t.actors[a].phase.Teardown())
  }

  /** The debts of actor `a` are those of `s` without `minus` and with `plus`. */
  ghost predicate Debts(s: State, t: State, a: nat, minus: set<Op>, plus: set<Op>) {
    forall op :: op != CloseSession ==> (Owes(t, a, op) <==> (Owes(s, a, op) && op !in minus) || op in plus)
  }

  ghost predicate Silent(s: State, t: State, a: nat) {
    && OnlyMoves(s, t, a) && Debts(s, t, a, {}, {})
    && t == s.(actors := t.actors)
  }

  ghost predicate Gains(s: State, t: State, a: nat, op: Op) {
    && OnlyMoves(s, t, a) && Debts(s, t, a, {}, {op})
    && var k := Index(t, a);
       match op
       case CloseSession => false
       case Free => t == s.(used := s.used + {k}, actors := t.actors) && LeastFree(s.used, k) && !Owes(s, a, Free)
       case DeleteVeth => t == s.(veths := s.veths + {k}, actors := t.actors) && Owes(s, a, Free)
       case Unbind =>
         t == s.(registry := s.registry[SandboxIP(s.base, k) := s.actors[a].id], actors := t.actors) && Owes(s, a, Free)
       case Kill => t == s.(alive := s.alive + {a}, actors := t.actors)
  }

  ghost predicate Loses(s: State, t: State, a: nat, op: Op) {
    && OnlyMoves(s, t, a) && Debts(s, t, a, {op}, {})
    && Owes(s, a, op)
    && t == Release(s, a, Index(s, a), op).(actors := t.actors)
  }

  lemma TeardownsOrdered(ph: Phase)
    requires !ph.Unwinding?
    ensures Ordered(ph.Teardown())
  {
    assert Ordered([Kill]);
    assert [Free, Kill][1..] == [Kill];
    assert Ordered([Free]);
    assert Ordered([Free, Kill]);
    assert [DeleteVeth, Free, Kill][1..] == [Free, Kill];
    assert [Unbind, Free, Kill][1..] == [Free, Kill];
    assert Ordered([Unbind, Free, Kill]);
    assert [DeleteVeth, Unbind, Free, Kill][1..] == [Unbind, Free, Kill];
    assert Ordered([DeleteVeth, Unbind, Free, Kill]);
    assert [CloseSession, DeleteVeth, Unbind, Free, Kill][1..] == [DeleteVeth, Unbind, Free, Kill];
  }

  function Acquires(e: Event): Op {
    match e
    case Allocate(_, _) => Free
    case Start(_) => Kill
    case Wire(_) => DeleteVeth
    case _ => Unbind
  }

  lemma AcquireShape(s: State, e: Event)
    requires Enabled(s, e)
    requires e.Allocate? || e.Start? || e.Wire? || e.Bind?
    ensures Gains(s, Step(s, e), e.a, Acquires(e))
  {
    TeardownsOrdered(Step(s, e).actors[e.a].phase);
  }

  /** Giving up changes no debt: the failure path releases exactly what is held. */
  lemma GiveUpShape(s: State, e: Event)
    requires Enabled(s, e) && Ordering(s)
    requires e.Fail? || (e.Cleanup? && s.actors[e.a].phase.Up?)
    ensures Silent(s, Step(s, e), e.a)
  {
    var t := Step(s, e);
    assert t.actors[e.a].phase.Teardown() == s.actors[e.a].phase.Teardown();
  }

  lemma QuietShape(s: State, e: Event)
    requires Enabled(s, e) && (e.Refuse? || e.Connect?)
    ensures Silent(s, Step(s, e), e.a)
  {
    var t := Step(s, e);
    TeardownsOrdered(t.actors[e.a].phase);
    assert e.Connect? ==> t.actors[e.a].phase.Teardown() == [CloseSession] + s.actors[e.a].phase.Teardown();
  }

  lemma UndoShape(s: State, e: Event)
    requires Enabled(s, e) && e.Undo? && Ordering(s)
    ensures Loses(s, Step(s, e), e.a, s.actors[e.a].phase.todo[0]) || Silent(s, Step(s, e), e.a)
  {
    var todo := s.actors[e.a].phase.todo;
    assert Ordered(s.actors[e.a].phase.Teardown());
    assert todo == [todo[0]] + todo[1..];
    if todo[0] == Free {
      assert !Owes(Step(s, e), e.a, Free);
    }
  }

  // ----- preservation -----

  lemma DebtsImplyFree(s: State)
    requires Ordering(s)
    ensures forall a: nat :: Owes(s, a, Unbind) || Owes(s, a, DeleteVeth) ==> Owes(s, a, Free)
  {
    forall a: nat | Owes(s, a, Unbind) || Owes(s, a, DeleteVeth) ensures Owes(s, a, Free) {
      assert Ordered(s.actors[a].phase.Teardown());
    }
  }

  ghost predicate Moves(s: State, t: State, a: nat) {
    Silent(s, t, a) || exists op :: Gains(s, t, a, op) || Loses(s, t, a, op)
  }

  lemma MovesFrame(s: State, t: State, a: nat)
    requires OnlyMoves(s, t, a)
    ensures forall b: nat, op :: b != a ==> Owes(t, b, op) == Owes(s, b, op)
    ensures forall b: nat :: b != a && b < |s.actors| ==> Index(t, b) == Index(s, b)
  {
  }

  lemma MovesOrdering(s: State, t: State, a: nat)
    requires Ordering(s) && OnlyMoves(s, t, a)
    ensures Ordering(t)
  {
  }

  lemma MovesIndices(s: State, t: State, a: nat, limit: nat)
    requires Inv(s, limit) && Moves(s, t, a)
    requires t.used != s.used && Owes(t, a, Free) ==> |s.used| < limit
    ensures Indices(t, limit)
  {
    IndexKind(s, t, a);
    if Owes(t, a, Free) && !Owes(s, a, Free) {
      InitialSegmentBound(s.used, Index(t, a));
    }
    IndexMoveKeeps(s, t, a, limit);
  }

  /** What a move does to the index of actor `a`: nothing, take a free one, or give it back. */
  ghost predicate IndexMove(s: State, t: State, a: nat) {
    || (t.used == s.used && Owes(t, a, Free) == Owes(s, a, Free))
    || (!Owes(s, a, Free) && Owes(t, a, Free) && LeastFree(s.used, Index(t, a)) && t.used == s.used + {Index(t, a)})
    || (Owes(s, a, Free) && !Owes(t, a, Free) && t.used == s.used - {Index(s, a)})
  }

  lemma IndexKind(s: State, t: State, a: nat)
    requires Moves(s, t, a)
    ensures OnlyMoves(s, t, a) && IndexMove(s, t, a)
  {
  }

  lemma IndexMoveKeeps(s: State, t: State, a: nat, limit: nat)
    requires Indices(s, limit) && OnlyMoves(s, t, a) && IndexMove(s, t, a)
    requires Owes(t, a, Free) && !Owes(s, a, Free) ==> Index(t, a) < limit
    ensures Indices(t, limit)
  {
    MovesFrame(s, t, a);
    forall k | k in t.used ensures exists b: nat :: Owes(t, b, Free) && Index(t, b) == k {
      if k in s.used {
        var b: nat :| Owes(s, b, Free) && Index(s, b) == k;
        assert Owes(t, b, Free) && Index(t, b) == k;
      } else {
        assert Owes(t, a, Free) && Index(t, a) == k;
      }
    }
  }

  /** What a move does to the veth of actor `a`: nothing, create it, or delete it. */
  ghost predicate VethMove(s: State, t: State, a: nat) {
    || (t.veths == s.veths && Owes(t, a, DeleteVeth) == Owes(s, a, DeleteVeth))
    || (Owes(t, a, DeleteVeth) && t.veths == s.veths + {Index(t, a)})
    || (Owes(s, a, DeleteVeth) && !Owes(t, a, DeleteVeth) && t.veths == s.veths - {Index(s, a)})
  }

  lemma MovesVeths(s: State, t: State, a: nat, limit: nat)
    requires Indices(s, limit) && Veths(s) && OnlyMoves(s, t, a) && VethMove(s, t, a)
    requires Ordering(s) && Ordering(t)
    ensures Veths(t)
  {
    MovesFrame(s, t, a);
    DebtsImplyFree(s);
    forall k | k in t.veths ensures exists b: nat :: Owes(t, b, DeleteVeth) && Index(t, b) == k {
      if k in s.veths {
        var b: nat :| Owes(s, b, DeleteVeth) && Index(s, b) == k;
        assert Owes(t, b, DeleteVeth) && Index(t, b) == k;
      } else {
        assert Owes(t, a, DeleteVeth) && Index(t, a) == k;
      }
    }
  }

  /** Sandboxes that hold different indices have different addresses. */
  lemma DistinctAddresses(s: State, limit: nat, a: nat, b: nat)
    requires Indices(s, limit) && limit <= TWO30
    requires Owes(s, a, Free) && Owes(s, b, Free) && a != b
    ensures SandboxIP(s.base, Index(s, a)) != SandboxIP(s.base, Index(s, b))
  {
    SandboxIPCollision(s.base, Index(s, a), Index(s, b));
  }

  /** What a move does to the registry entry of actor `a`. */
  ghost predicate BindMove(s: State, t: State, a: nat) {
    && a < |s.actors| && a < |t.actors|
    && (|| (t.registry == s.registry && Owes(t, a, Unbind) == Owes(s, a, Unbind))
        || (Owes(s, a, Free) && Owes(t, a, Unbind)
            && t.registry == s.registry[SandboxIP(s.base, Index(t, a)) := s.actors[a].id])
        || (Owes(s, a, Unbind) && !Owes(t, a, Unbind)
            && t.registry == s.registry - {SandboxIP(s.base, Index(s, a))}))
  }

  lemma MovesBindings(s: State, t: State, a: nat, limit: nat)
    requires Indices(s, limit) && limit <= TWO30 && Bindings(s) && OnlyMoves(s, t, a) && BindMove(s, t, a)
    requires Ordering(s)
    ensures Bindings(t)
  {
    DebtsImplyFree(s);
    forall b: nat | Owes(t, b, Unbind)
      ensures SandboxIP(t.base, Index(t, b)) in t.registry &&
              t.registry[SandboxIP(t.base, Index(t, b))] == t.actors[b].id
    {
      MovesBinding(s, t, a, b, limit);
    }
    forall ip | ip in t.registry ensures exists b: nat :: Owes(t, b, Unbind) && SandboxIP(t.base, Index(t, b)) == ip {
      MovesBinder(s, t, a, ip);
    }
  }

  lemma MovesBinding(s: State, t: State, a: nat, b: nat, limit: nat)
    requires Indices(s, limit) && limit <= TWO30 && Bindings(s) && OnlyMoves(s, t, a) && BindMove(s, t, a)
    requires Owes(t, b, Unbind) &&
             (Owes(s, a, Unbind) ==> Owes(s, a, Free)) && (Owes(s, b, Unbind) ==> Owes(s, b, Free))
    ensures SandboxIP(t.base, Index(t, b)) in t.registry && t.registry[SandboxIP(t.base, Index(t, b))] == t.actors[b].id
  {
    if b != a {
      assert Owes(s, b, Unbind) && Index(t, b) == Index(s, b);
      if Owes(s, a, Free) {
        DistinctAddresses(s, limit, a, b);
      }
    }
  }

  lemma MovesBinder(s: State, t: State, a: nat, ip: U32)
    requires Bindings(s) && OnlyMoves(s, t, a) && BindMove(s, t, a) && ip in t.registry
    requires Owes(s, a, Unbind) ==> Owes(s, a, Free)
    ensures exists b: nat :: Owes(t, b, Unbind) && SandboxIP(t.base, Index(t, b)) == ip
  {
    if ip in s.registry {
      var b: nat :| Owes(s, b, Unbind) && SandboxIP(s.base, Index(s, b)) == ip;
      assert Owes(t, b, Unbind) && Index(t, b) == Index(s, b);
    } else {
      assert Owes(t, a, Unbind) && SandboxIP(t.base, Index(t, a)) == ip;
    }
  }

  lemma MovesKinds(s: State, t: State, a: nat)
    requires Moves(s, t, a) && Ordering(s) && Ordering(t)
    ensures VethMove(s, t, a) && BindMove(s, t, a)
  {
    DebtsImplyFree(s);
    DebtsImplyFree(t);
  }

  lemma MovesProcesses(s: State, t: State, a: nat)
    requires Processes(s) && Moves(s, t, a)
    ensures Processes(t)
  {
    MovesFrame(s, t, a);
  }

  lemma StepMoves(s: State, e: Event)
    requires Enabled(s, e) && Ordering(s)
    requires e.Cleanup? ==> s.actors[e.a].phase.Up?
    ensures Moves(s, Step(s, e), e.a)
  {
    match e
    case Allocate(_, _) => AcquireShape(s, e);
    case Start(_) => AcquireShape(s, e);
    case Wire(_) => AcquireShape(s, e);
    case Bind(_) => AcquireShape(s, e);
    case Refuse(_) => QuietShape(s, e);
    case Connect(_) => QuietShape(s, e);
    case Fail(_) => GiveUpShape(s, e);
    case Cleanup(_) => GiveUpShape(s, e);
    case Undo(_) => UndoShape(s, e);
  }

  lemma StepKeepsInv(s: State, e: Event, limit: nat)
    requires Inv(s, limit) && limit <= TWO30 && Enabled(s, e) && Disciplined(s, e, limit)
    ensures Inv(Step(s, e), limit)
  {
    StepMoves(s, e);
    AllocateBounded(s, e, limit);
    MovesKeepInv(s, Step(s, e), e.a, limit);
  }

  lemma AllocateBounded(s: State, e: Event, limit: nat)
    requires Ordering(s) && Enabled(s, e) && Disciplined(s, e, limit)
    ensures Step(s, e).used != s.used && Owes(Step(s, e), e.a, Free) ==> |s.used| < limit
  {
    assert Ordered(s.actors[e.a].phase.Teardown());
  }

  lemma MovesKeepInv(s: State, t: State, a: nat, limit: nat)
    requires Inv(s, limit) && limit <= TWO30 && Moves(s, t, a)
    requires t.used != s.used && Owes(t, a, Free) ==> |s.used| < limit
    ensures Inv(t, limit)
  {
    MovesOrdering(s, t, a);
    MovesIndices(s, t, a, limit);
    MovesKinds(s, t, a);
    MovesVeths(s, t, a, limit);
    MovesBindings(s, t, a, limit);
    MovesProcesses(s, t, a);
  }

  /** Every reachable state satisfies the invariant. */
  lemma {:induction false} RunKeepsInv(s: State, es: seq<Event>, t: State, limit: nat)
    requires Inv(s, limit) && limit <= TWO30 && Run(s, es, t, limit)
    ensures Inv(t, limit)
    decreases |es|
  {
    if es != [] {
      StepKeepsInv(s, es[0], limit);
      RunKeepsInv(Step(s, es[0]), es[1..], t, limit);
    }
  }

  // ----- what the protocol guarantees -----

  lemma InitInv(s: State, limit: nat)
    requires Init(s)
    ensures Inv(s, limit)
  {
  }

  /** Sandbox `a` is registered at `ip`: its Bind has run and its Unbind has not. */
  predicate Serves(s: State, a: nat, ip: U32) {
    Owes(s, a, Unbind) && SandboxIP(s.base, Index(s, a)) == ip
  }

  /** In every interleaving, a lookup succeeds exactly while some sandbox is
      registered at that address, it yields that sandbox's identity, and that
      sandbox is the only one holding the subnet of the address. */
  lemma LookupNamesTheHolder(s: State, es: seq<Event>, t: State, limit: nat, ip: U32)
    requires Init(s) && limit <= TWO30 && Run(s, es, t, limit)
    ensures Lookup(t, ip).0 <==> exists a: nat :: Serves(t, a, ip)
    ensures forall a: nat :: Serves(t, a, ip) ==> Lookup(t, ip) == (true, t.actors[a].id) && Owes(t, a, Free)
    ensures forall a: nat, b: nat ::
      Serves(t, a, ip) && Owes(t, b, Free) && SandboxIP(t.base, Index(t, b)) == ip ==> a == b
  {
    InitInv(s, limit);
    RunKeepsInv(s, es, t, limit);
    HolderIsUnique(t, limit, ip);
  }

  lemma HolderIsUnique(t: State, limit: nat, ip: U32)
    requires Inv(t, limit) && limit <= TWO30
    ensures Lookup(t, ip).0 <==> exists a: nat :: Serves(t, a, ip)
    ensures forall a: nat :: Serves(t, a, ip) ==> Lookup(t, ip) == (true, t.actors[a].id) && Owes(t, a, Free)
    ensures forall a: nat, b: nat ::
      Serves(t, a, ip) && Owes(t, b, Free) && SandboxIP(t.base, Index(t, b)) == ip ==> a == b
  {
    DebtsImplyFree(t);
    forall a: nat, b: nat | Serves(t, a, ip) && Owes(t, b, Free) && SandboxIP(t.base, Index(t, b)) == ip
      ensures a == b
    {
      if a != b {
        DistinctAddresses(t, limit, a, b);
      }
    }
    if Lookup(t, ip).0 {
      var a: nat :| Owes(t, a, Unbind) && SandboxIP(t.base, Index(t, a)) == ip;
      assert Serves(t, a, ip);
    }
  }

  /** The interface names derived from an index are free whenever a spawn creates its veth pair. */
  lemma VethNameIsFree(s: State, es: seq<Event>, t: State, limit: nat, a: nat)
    requires Init(s) && limit <= TWO30 && Run(s, es, t, limit)
    requires Enabled(t, Wire(a))
    ensures Index(t, a) !in t.veths
  {
    InitInv(s, limit);
    RunKeepsInv(s, es, t, limit);
    DebtsImplyFree(t);
    assert Owes(t, a, Free) && !Owes(t, a, DeleteVeth);
  }

  /** With fewer than 16384 subnets live at every allocation on a /16 base, in
      every reachable state all live /30s lie in the base and are apart. */
  lemma LiveSubnetsInBase(s: State, es: seq<Event>, t: State)
    requires Init(s) && s.base % 0x1_0000 == 0 && Run(s, es, t, 16384)
    ensures t.base == s.base
    ensures forall a: nat :: Owes(t, a, Free) ==> Inside(t.base, Index(t, a))
    ensures forall a: nat, b: nat ::
      Owes(t, a, Free) && Owes(t, b, Free) && a != b ==> Apart(t.base, Index(t, a), Index(t, b))
  {
    InitInv(s, 16384);
    RunKeepsInv(s, es, t, 16384);
    RunKeepsBase(s, es, t, 16384);
    SlashSixteen(t.base);
    forall a: nat | Owes(t, a, Free) ensures Inside(t.base, Index(t, a)) {
      LowIndexInside(t.base, Index(t, a));
    }
    forall a: nat, b: nat | Owes(t, a, Free) && Owes(t, b, Free) && a != b
      ensures Apart(t.base, Index(t, a), Index(t, b))
    {
      DistinctApart(t.base, Index(t, a), Index(t, b));
    }
  }

  lemma {:induction false} RunKeepsBase(s: State, es: seq<Event>, t: State, limit: nat)
    requires Run(s, es, t, limit)
    ensures t.base == s.base
    decreases |es|
  {
    if es != [] {
      RunKeepsBase(Step(s, es[0]), es[1..], t, limit);
    }
  }

  /** Once no spawn or cleanup has a release left to run, nothing is left behind. */
  lemma NothingLeaks(s: State, limit: nat)
    requires Inv(s, limit)
    requires forall a :: 0 <= a < |s.actors| ==> s.actors[a].phase.Teardown() == []
    ensures s.used == {} && s.registry == map[] && s.veths == {} && s.alive == {}
  {
    assert forall a: nat, op :: !Owes(s, a, op);
    assert forall k :: k !in s.used;
    assert forall ip :: ip !in s.registry;
    assert forall k :: k !in s.veths;
  }

  // ----- why Cleanup must not be called twice -----

  lemma {:induction false} RunThen(s: State, es: seq<Event>, t: State, fs: seq<Event>, u: State, limit: nat)
    requires Run(s, es, t, limit) && Run(t, fs, u, limit)
    ensures Run(s, es + fs, u, limit)
    decreases |es|
  {
    if es == [] {
      assert es + fs == fs;
    } else {
      var e, rest := es[0], es[1..];
      var m := RunHead(s, e, rest, es, t, limit);
      RunThen(m, rest, t, fs, u, limit);
      RunPush(s, e, m, rest, fs, u, limit);
      assert [e] + rest == es;
    }
  }

  ghost predicate Goes(s: State, e: Event, t: State, limit: nat) {
    Enabled(s, e) && Disciplined(s, e, limit) && t == Step(s, e)
  }

  lemma RunHead(s: State, e: Event, rest: seq<Event>, es: seq<Event>, t: State, limit: nat) returns (m: State)
    requires es != [] && e == es[0] && rest == es[1..] && Run(s, es, t, limit)
    ensures Goes(s, e, m, limit) && Run(m, rest, t, limit)
  {
    m := Step(s, e);
  }

  lemma RunPush(s: State, e: Event, m: State, rest: seq<Event>, fs: seq<Event>, t: State, limit: nat)
    requires Goes(s, e, m, limit) && Run(m, rest + fs, t, limit)
    ensures Run(s, ([e] + rest) + fs, t, limit)
  {
    RunCons(s, e, rest + fs, t, limit);
    assert [e] + (rest + fs) == ([e] + rest) + fs;
  }

  lemma RunCons(s: State, e: Event, es: seq<Event>, t: State, limit: nat)
    requires Enabled(s, e) && Disciplined(s, e, limit) && Run(Step(s, e), es, t, limit)
    ensures Run(s, [e] + es, t, limit)
  {
    assert ([e] + es)[1..] == es;
  }

  function SpawnEvents(a: nat, k: nat): seq<Event> { [Allocate(a, k), Start(a), Wire(a), Bind(a), Connect(a)] }

  /** The state once an undisturbed spawn of actor `a` at index `k` has returned. */
  function Spawned(s: State, a: nat, k: nat): State
    requires a < |s.actors|
  {
    Goto(s.(used := s.used + {k}, alive := s.alive + {a}, veths := s.veths + {k},
            registry := s.registry[SandboxIP(s.base, k) := s.actors[a].id]), a, Up(k))
  }

  lemma SoloSpawn(s: State, a: nat, k: nat, limit: nat)
    requires a < |s.actors| && s.actors[a].phase.Fresh? && LeastFree(s.used, k) && |s.used| < limit
    ensures Run(s, SpawnEvents(a, k), Spawned(s, a, k), limit)
  {
    var t := Spawned(s, a, k);
    var s1 := Step(s, Allocate(a, k));
    var s2 := Step(s1, Start(a));
    var s3 := Step(s2, Wire(a));
    var s4 := Step(s3, Bind(a));
    assert Step(s4, Connect(a)) == t;
    RunCons(s4, Connect(a), [], t, limit);
    RunCons(s3, Bind(a), [Connect(a)], t, limit);
    RunCons(s2, Wire(a), [Bind(a), Connect(a)], t, limit);
    RunCons(s1, Start(a), [Wire(a), Bind(a), Connect(a)], t, limit);
    RunCons(s, Allocate(a, k), [Start(a), Wire(a), Bind(a), Connect(a)], t, limit);
  }

  lemma UndoStep(s: State, a: nat, k: nat, op: Op, rest: seq<Op>)
    requires a < |s.actors| && s.actors[a].phase == Unwinding(k, [op] + rest)
    ensures Enabled(s, Undo(a)) && Step(s, Undo(a)) == Goto(Release(s, a, k, op), a, Unwinding(k, rest))
  {
    assert ([op] + rest)[1..] == rest;
  }

  /** The state once the session, the veth and the registry entry are released. */
  function Detached(s: State, a: nat, k: nat): State
    requires a < |s.actors|
  {
    Goto(s.(veths := s.veths - {k}, registry := s.registry - {SandboxIP(s.base, k)}), a, Unwinding(k, [Free, Kill]))
  }

  lemma SoloDetach(s: State, a: nat, k: nat, limit: nat)
    requires a < |s.actors| && s.actors[a].phase == Unwinding(k, [CloseSession, DeleteVeth, Unbind, Free, Kill])
    ensures Run(s, [Undo(a), Undo(a), Undo(a)], Detached(s, a, k), limit)
  {
    var t := Detached(s, a, k);
    var s1 := Goto(s, a, Unwinding(k, [DeleteVeth, Unbind, Free, Kill]));
    var s2 := Goto(s.(veths := s.veths - {k}), a, Unwinding(k, [Unbind, Free, Kill]));
    assert Run(t, [], t, limit);
    UndoCons(s2, a, k, Unbind, [Free, Kill], t, [], t, limit);
    UndoCons(s1, a, k, DeleteVeth, [Unbind, Free, Kill], s2, [Undo(a)], t, limit);
    UndoCons(s, a, k, CloseSession, [DeleteVeth, Unbind, Free, Kill], s1, [Undo(a), Undo(a)], t, limit);
  }

  /** One release in front of a run. */
  lemma UndoCons(s: State, a: nat, k: nat, op: Op, rest: seq<Op>, m: State, es: seq<Event>, t: State, limit: nat)
    requires a < |s.actors| && s.actors[a].phase == Unwinding(k, [op] + rest)
    requires m == Goto(Release(s, a, k, op), a, Unwinding(k, rest)) && Run(m, es, t, limit)
    ensures Run(s, [Undo(a)] + es, t, limit)
  {
    UndoStep(s, a, k, op, rest);
    RunCons(s, Undo(a), es, t, limit);
  }

  function Gone(s: State, a: nat, k: nat): State
    requires a < |s.actors|
  {
    Goto(s.(used := s.used - {k}, alive := s.alive - {a}), a, Unwinding(k, []))
  }

  lemma SoloFree(s: State, a: nat, k: nat, limit: nat)
    requires a < |s.actors| && s.actors[a].phase == Unwinding(k, [Free, Kill])
    ensures Run(s, [Undo(a), Undo(a)], Gone(s, a, k), limit)
  {
    var s1 := Goto(s.(used := s.used - {k}), a, Unwinding(k, [Kill]));
    var t := Gone(s, a, k);
    assert Run(t, [], t, limit);
    UndoCons(s1, a, k, Kill, [], t, [], t, limit);
    UndoCons(s, a, k, Free, [Kill], s1, [Undo(a)], t, limit);
  }

  function CleanupEvents(a: nat): seq<Event> { [Cleanup(a)] + ([Undo(a), Undo(a), Undo(a)] + [Undo(a), Undo(a)]) }

  function CleanedUp(s: State, a: nat, k: nat): State
    requires a < |s.actors| && s.actors[a].phase.HasIndex()
  {
    Gone(Detached(CallCleanup(s, a), a, k), a, k)
  }

  lemma SoloCleanup(s: State, a: nat, k: nat, limit: nat)
    requires a < |s.actors| && s.actors[a].phase == Up(k)
    ensures Run(s, CleanupEvents(a), CleanedUp(s, a, k), limit)
  {
    var s1 := CallCleanup(s, a);
    var s2 := Detached(s1, a, k);
    SoloDetach(s1, a, k, limit);
    SoloFree(s2, a, k, limit);
    RunThen(s1, [Undo(a), Undo(a), Undo(a)], s2, [Undo(a), Undo(a)], Gone(s2, a, k), limit);
    RunCons(s, Cleanup(a), [Undo(a), Undo(a), Undo(a)] + [Undo(a), Undo(a)], Gone(s2, a, k), limit);
  }

  /** Spawn, clean up, and let another spawn take the index again. */
  ghost function Reused(s: State): State
    requires |s.actors| >= 2
  {
    Spawned(CleanedUp(Spawned(s, 0, 0), 0, 0), 1, 0)
  }

  function ReuseEvents(): seq<Event> { SpawnEvents(0, 0) + (CleanupEvents(0) + SpawnEvents(1, 0)) }

  lemma AfterCleanup(s: State)
    requires Init(s) && |s.actors| >= 2
    ensures var t := CleanedUp(Spawned(s, 0, 0), 0, 0);
            && t.base == s.base && t.used == {} && t.registry == map[] && |t.actors| == |s.actors|
            && t.actors[0] == Actor(s.actors[0].id, Unwinding(0, []), 1) && t.actors[1] == s.actors[1]
  {
  }

  lemma ReusedIsReached(s: State, limit: nat)
    requires Init(s) && |s.actors| >= 2 && 0 < limit
    ensures Run(s, ReuseEvents(), Reused(s), limit)
  {
    var s1 := Spawned(s, 0, 0);
    var s2 := CleanedUp(s1, 0, 0);
    SoloSpawn(s, 0, 0, limit);
    SoloCleanup(s1, 0, 0, limit);
    AfterCleanup(s);
    SoloSpawn(s2, 1, 0, limit);
    RunThen(s1, CleanupEvents(0), s2, SpawnEvents(1, 0), Reused(s), limit);
    RunThen(s, SpawnEvents(0, 0), s1, CleanupEvents(0) + SpawnEvents(1, 0), Reused(s), limit);
  }

  /** The at-most-once rule for Cleanup is needed: from every initial state with two
      spawns, a run with no second cleanup ends with the first sandbox gone and the
      second one up and registered at the same address; calling the first closure
      again and letting three of its releases happen leaves the second sandbox up
      without its registry entry. */
  lemma SecondCleanupSteals(s: State, limit: nat)
    requires Init(s) && |s.actors| >= 2 && 0 < limit
    ensures Run(s, ReuseEvents(), Reused(s), limit)
    ensures Steals(Reused(s), SandboxIP(s.base, 0), s.actors[1].id, limit)
  {
    ReusedIsReached(s, limit);
    AfterCleanup(s);
    GoneStealsBack(Reused(s), limit);
  }

  lemma GoneStealsBack(t: State, limit: nat)
    requires |t.actors| >= 2 && t.actors[1].phase == Up(0) && SandboxIP(t.base, 0) in t.registry
    requires t.actors[0].phase == Unwinding(0, []) && t.actors[0].cleanups == 1
    ensures Steals(t, SandboxIP(t.base, 0), t.registry[SandboxIP(t.base, 0)], limit)
  {
    SoloDetach(CallCleanup(t, 0), 0, 0, limit);
  }

  /** Running the closure of a finished sandbox again, to the end, changes no resource
      exactly while its index has not been handed out again. */
  lemma SecondCleanupHarmless(s: State, a: nat, k: nat, limit: nat)
    requires Inv(s, limit) && limit <= TWO30 && k < TWO30
    requires a < |s.actors| && s.actors[a].phase == Unwinding(k, [])
    ensures var t := CleanedUp(s, a, k);
            t.used == s.used && t.registry == s.registry && t.veths == s.veths && t.alive == s.alive <==> k !in s.used
  {
    if k !in s.used {
      NothingAt(s, k, limit);
      assert !Owes(s, a, Kill);
    }
  }

  /** A free index has neither a registry entry nor a veth. */
  lemma NothingAt(s: State, k: nat, limit: nat)
    requires Inv(s, limit) && limit <= TWO30 && k < TWO30 && k !in s.used
    ensures SandboxIP(s.base, k) !in s.registry && k !in s.veths
  {
    DebtsImplyFree(s);
    forall b: nat | Owes(s, b, Unbind) ensures SandboxIP(s.base, Index(s, b)) != SandboxIP(s.base, k) {
      OtherAddress(s.base, s.used, Index(s, b), k);
    }
  }

  lemma OtherAddress(base: U32, used: set<nat>, i: nat, k: nat)
    requires i < TWO30 && k < TWO30 && i in used && k !in used
    ensures SandboxIP(base, i) != SandboxIP(base, k)
  {
    Netmgr.DistinctAddresses(base, i, k);
  }

  /** A second call of the first sandbox's Cleanup takes the entry of the second one. */
  ghost predicate Steals(t: State, ip: U32, id: Identity, limit: nat)
    requires |t.actors| >= 2
  {
    && t.actors[1].phase == Up(0) && Lookup(t, ip) == (true, id)
    && Enabled(t, Cleanup(0)) && t.actors[0].cleanups == 1
    && var u := Detached(CallCleanup(t, 0), 0, 0);
       && Run(Step(t, Cleanup(0)), [Undo(0), Undo(0), Undo(0)], u, limit)
       && u.actors[1].phase == Up(0) && !Lookup(u, ip).0
  }
}

/** internal/proxy/registry.go and the sequential effect of one spawn and its cleanup. */
module SpawnCalls {
  import opened Netmgr
  import opened Sandboxes

  class Registry {
    var m: map<U32, Identity>

    constructor ()
      ensures m == map[]
    {
      m := map[];
    }

    method Bind(ip: U32, id: Identity)
      modifies this
      ensures m == old(m)[ip := id]
    {
      m := m[ip := id];
    }

    method Unbind(ip: U32)
      modifies this
      ensures m == old(m) - {ip}
    {
      m := m - {ip};
    }

    method Lookup(ip: U32) returns (id: Identity, ok: bool)
      ensures ok <==> ip in m
      ensures ok ==> id == m[ip]
    {
      ok := ip in m;
      id := if ip in m then m[ip] else Identity("", "");
    }
  }

  /** The veth pairs, by subnet index, and the processes of the host with their
      open MCP sessions. */
  class Kernel {
    var veths: set<nat>
    var alive: set<nat>
    var sessions: set<nat>

    constructor ()
      ensures veths == {} && alive == {} && sessions == {}
    {
      veths, alive, sessions := {}, {}, {};
    }

    method Connect(pid: nat)
      modifies `sessions
      ensures sessions == old(sessions) + {pid}
    {
      sessions := sessions + {pid};
    }

    method CloseSession(pid: nat)
      modifies `sessions
      ensures sessions == old(sessions) - {pid}
    {
      sessions := sessions - {pid};
    }

    method Start(pid: nat)
      modifies `alive
      ensures alive == old(alive) + {pid}
    {
      alive := alive + {pid};
    }

    method Kill(pid: nat)
      modifies `alive
      ensures alive == old(alive) - {pid}
    {
      alive := alive - {pid};
    }

    method CreateVeth(k: nat)
      modifies `veths
      ensures veths == old(veths) + {k}
    {
      veths := veths + {k};
    }

    method DeleteVeth(k: nat)
      modifies `veths
      ensures veths == old(veths) - {k}
    {
      veths := veths - {k};
    }
  }

  /** The step of a spawn at which its environment reports an error. */
  datatype Fault = NoFault | Arch | BeforeStart | AfterStart | AfterVeth | AtConnect

  datatype Outcome = Failed(fault: Fault) | Spawned(sub: Subnet)

  /** Nothing of the subnet `k` or the process `pid` is around yet. */
  ghost predicate Clear(alloc: Allocator, reg: Registry, kernel: Kernel, k: nat, pid: nat)
    reads reg, kernel
  {
    SandboxIP(alloc.base, k) !in reg.m && k !in kernel.veths && pid !in kernel.alive && pid !in kernel.sessions
  }

  /** One undisturbed SpawnEgressBackend call. A failure at any step leaves the
      allocator as it was and, if nothing of the subnet and process was around,
      also the registry, the veths and the processes; a success adds exactly one
      index, binding, veth pair, process and session. */
  method SpawnEgressBackend(alloc: Allocator, reg: Registry, kernel: Kernel, id: Identity, pid: nat, fault: Fault)
    returns (r: Outcome, ghost k: nat)
    modifies alloc, reg, kernel
    ensures if fault.NoFault? then r.Spawned? else r == Failed(fault)
    ensures LeastFree(old(alloc.used), k)
    ensures r.Failed? ==> alloc.used == old(alloc.used) && kernel.sessions == old(kernel.sessions)
    ensures r.Failed? && old(Clear(alloc, reg, kernel, k, pid)) ==>
              reg.m == old(reg.m) && kernel.veths == old(kernel.veths) && kernel.alive == old(kernel.alive)
    ensures r.Spawned? ==> r.sub == SubnetAt(alloc.base, k) && alloc.used == old(alloc.used) + {k}
    ensures r.Spawned? ==> reg.m == old(reg.m)[SandboxIP(alloc.base, k) := id]
    ensures r.Spawned? ==> kernel.veths == old(kernel.veths) + {k} && kernel.alive == old(kernel.alive) + {pid}
    ensures r.Spawned? ==> kernel.sessions == old(kernel.sessions) + {pid}
  {
    k := FirstFree(alloc.used, 0);
    if fault == Arch {
      return Failed(Arch), k;
    }
    var sub := alloc.Allocate();
    if fault == BeforeStart {
      alloc.Free(sub);
      return Failed(fault), k;
    }
    kernel.Start(pid);
    if fault == AfterStart {
      alloc.Free(sub);
      kernel.Kill(pid);
      return Failed(fault), k;
    }
    kernel.CreateVeth(sub.index);
    if fault == AfterVeth {
      kernel.DeleteVeth(sub.index);
      alloc.Free(sub);
      kernel.Kill(pid);
      return Failed(fault), k;
    }
    reg.Bind(sub.sandboxIP, id);
    if fault == AtConnect {
      Release(alloc, reg, kernel, sub, pid);
      return Failed(AtConnect), k;
    }
    kernel.Connect(pid);
    return Spawned(sub), k;
  }

  /** The least free index from `k` on. */
  ghost function FirstFree(used: set<nat>, k: nat): (r: nat)
    requires forall j: nat :: j < k ==> j in used
    ensures LeastFree(used, r)
    decreases |used| + 1 - k
  {
    InitialSegmentBound(used, k);
    if k in used then
      (InitialSegmentBound(used, k + 1); FirstFree(used, k + 1))
    else k
  }

  /** The releases of a bound sandbox: the veth and the registry entry before the
      index can be handed out again. */
  method Release(alloc: Allocator, reg: Registry, kernel: Kernel, sub: Subnet, pid: nat)
    modifies alloc, reg, kernel
    ensures alloc.used == old(alloc.used) - {sub.index} && reg.m == old(reg.m) - {sub.sandboxIP}
    ensures kernel.veths == old(kernel.veths) - {sub.index} && kernel.alive == old(kernel.alive) - {pid}
    ensures kernel.sessions == old(kernel.sessions)
  {
    kernel.DeleteVeth(sub.index);
    reg.Unbind(sub.sandboxIP);
    alloc.Free(sub);
    kernel.Kill(pid);
  }

  /** The Cleanup closure: the session first, then the releases. */
  method FinalCleanup(alloc: Allocator, reg: Registry, kernel: Kernel, sub: Subnet, pid: nat)
    modifies alloc, reg, kernel
    ensures alloc.used == old(alloc.used) - {sub.index} && reg.m == old(reg.m) - {sub.sandboxIP}
    ensures kernel.veths == old(kernel.veths) - {sub.index} && kernel.alive == old(kernel.alive) - {pid}
    ensures kernel.sessions == old(kernel.sessions) - {pid}
  {
    kernel.CloseSession(pid);
    Release(alloc, reg, kernel, sub, pid);
  }

  /** A spawn followed by its cleanup restores everything. */
  method SpawnThenCleanup(alloc: Allocator, reg: Registry, kernel: Kernel, id: Identity, pid: nat)
    requires |alloc.used| < TWO30
    requires forall k: nat :: k < TWO30 && k !in alloc.used ==> Clear(alloc, reg, kernel, k, pid)
    modifies alloc, reg, kernel
    ensures alloc.used == old(alloc.used) && reg.m == old(reg.m)
    ensures kernel.veths == old(kernel.veths) && kernel.alive == old(kernel.alive)
    ensures kernel.sessions == old(kernel.sessions)
  {
    var r, k := SpawnEgressBackend(alloc, reg, kernel, id, pid, NoFault);
    InitialSegmentBound(old(alloc.used), k);
    assert old(Clear(alloc, reg, kernel, k, pid));
    FinalCleanup(alloc, reg, kernel, r.sub, pid);
  }
}
