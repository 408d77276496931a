/** Every interleaving of getOrCreate, Invalidate and Close calls over the
    sections of ProfileHost. A channel is identified by its position in
    `makers`, so the channel of a finished build and the channel of a newer
    build of the same profile are different. */
module ProfileRuns {
  import opened Common
  import opened ProfileHost

  datatype Result = Got(rt: Runtime) | Err

  /** Where one getOrCreate call stands. */
  datatype Pc =
    | AtLock                                             // about to lock, first time or looping back
    | Waiting(ch: nat)                                   // blocked receiving on ch
    | Spawning(ch: nat, todo: nat, got: seq<Backend>)    // inside spawnProfile, `todo` servers left
    | Failing(ch: nat, left: seq<Backend>)               // spawnProfile runs the collected cleanups
    | Ready(ch: nat, got: seq<Backend>)                  // spawnProfile returned a runtime
    | Closing(ch: nat, res: Result)                      // unlocked, about to close ch
    | Done(res: Result)
  {
    predicate Builds() { Spawning? || Failing? || Ready? }

    predicate Building(c: nat) { Builds() && this.ch == c }

    predicate Unclaimed() { AtLock? || Waiting? }
  }

  datatype Caller = Caller(pid: Pid, pc: Pc)

  datatype TKey = TKey(op: nat, pid: Pid)

  /** `teardowns` holds the cleanups Invalidate and Close calls still have to
      run; `log` is the order in which Cleanup closures were called; `stores`
      and `removals` count, per profile, runtimes stored and Invalidates that
      removed one. */
  datatype State = State(
    h: Shared, callers: seq<Caller>, makers: seq<nat>, closedChans: set<nat>,
    teardowns: map<TKey, seq<Backend>>, ops: nat,
    spawned: set<Backend>, log: seq<Backend>,
    stores: multiset<Pid>, removals: multiset<Pid>)

  datatype Event =
    | Lock(c: nat, bundle: nat)
    | Wake(c: nat)
    | SpawnOk(c: nat, b: Backend)
    | Skip(c: nat)
    | SpawnErr(c: nat)
    | Assemble(c: nat)
    | FailClean(c: nat)
    | CommitBuild(c: nat)
    | CloseChan(c: nat)
    | Invalidate(p: Pid)
    | Close
    | Teardown(k: TKey)
  {
    predicate OfCall() { !Invalidate? && !Close? && !Teardown? }
  }

  predicate Enabled(s: State, e: Event) {
    match e
    case Invalidate(_) => true
    case Close => true
    case Teardown(k) => k in s.teardowns && s.teardowns[k] != []
    case _ =>
      && e.c < |s.callers|
      && var pc := s.callers[e.c].pc;
         match e
         case Lock(_, _) => pc.AtLock?
         case Wake(_) => pc.Waiting? && pc.ch in s.closedChans
         case SpawnOk(_, b) => pc.Spawning? && pc.todo > 0 && b !in s.spawned
         case Skip(_) => pc.Spawning? && pc.todo > 0
         case SpawnErr(_) => pc.Spawning?
         case Assemble(_) => pc.Spawning? && pc.todo == 0
         case FailClean(_) => pc.Failing? && pc.left != []
         case CommitBuild(_) => pc.Ready? || (pc.Failing? && pc.left == [])
         case _ => pc.Closing?
  }

  function Goto(s: State, c: nat, pc: Pc): State
    requires c < |s.callers|
  {
    s.(callers := s.callers[c := s.callers[c].(pc := pc)])
  }

  function StepLock(s: State, c: nat, bundle: nat): State
    requires Enabled(s, Lock(c, bundle))
  {
    var (h, r) := Enter(s.h, s.callers[c].pid, |s.makers|);
    var t := s.(h := h);
    match r
    case HostClosed => Goto(t, c, Done(Err))
    case Warm(rt) => Goto(t, c, Done(Got(rt)))
    case Wait(ch) => Goto(t, c, Waiting(ch))
    case Claim => Goto(t.(makers := s.makers + [c]), c, Spawning(|s.makers|, bundle, []))
  }

  function StepCommit(s: State, c: nat): State
    requires Enabled(s, CommitBuild(c))
  {
    var p, pc := s.callers[c].pid, s.callers[c].pc;
    var b := if pc.Ready? then BuildOk(Runtime(c, pc.got)) else BuildFailed;
    var (h, r) := Commit(s.h, p, b);
    var t := s.(h := h);
    match r
    case Errored => Goto(t, c, Closing(pc.ch, Err))
    case Abandoned(rt) => Goto(t.(log := s.log + rt.cleanups), c, Closing(pc.ch, Err))
    case Kept(rt) => Goto(t.(stores := s.stores + multiset{p}), c, Closing(pc.ch, Got(rt)))
  }

  function StepInvalidate(s: State, p: Pid): State {
    var (h, r) := Remove(s.h, p);
    if r.None? then s.(ops := s.ops + 1)
    else s.(h := h, ops := s.ops + 1, removals := s.removals + multiset{p},
            teardowns := s.teardowns[TKey(s.ops, p) := r.value.cleanups])
  }

  function StepClose(s: State): State {
    s.(h := Shut(s.h), ops := s.ops + 1,
       teardowns := s.teardowns + map p | p in Runtimes(s.h) :: TKey(s.ops, p) := Runtimes(s.h)[p].cleanups)
  }

  function Step(s: State, e: Event): State
    requires Enabled(s, e)
  {
    match e
    case Lock(c, bundle) => StepLock(s, c, bundle)
    case Wake(c) => Goto(s, c, AtLock)
    case SpawnOk(c, b) =>
      var pc := s.callers[c].pc;
      Goto(s.(spawned := s.spawned + {b}), c, Spawning(pc.ch, pc.todo - 1, pc.got + [b]))
    case Skip(c) =>
      var pc := s.callers[c].pc;
      Goto(s, c, Spawning(pc.ch, pc.todo - 1, pc.got))
    case SpawnErr(c) => Goto(s, c, Failing(s.callers[c].pc.ch, s.callers[c].pc.got))
    case Assemble(c) => Goto(s, c, Ready(s.callers[c].pc.ch, s.callers[c].pc.got))
    case FailClean(c) =>
      var pc := s.callers[c].pc;
      Goto(s.(log := s.log + [pc.left[0]]), c, Failing(pc.ch, pc.left[1..]))
    case CommitBuild(c) => StepCommit(s, c)
    case CloseChan(c) =>
      var pc := s.callers[c].pc;
      Goto(s.(closedChans := s.closedChans + {pc.ch}), c, Done(pc.res))
    case Invalidate(p) => StepInvalidate(s, p)
    case Close => StepClose(s)
    case Teardown(k) =>
      s.(log := s.log + [s.teardowns[k][0]], teardowns := s.teardowns[k := s.teardowns[k][1..]])
  }

  ghost predicate Init(s: State) {
    && s.h == Shared(false, None, map[])
    && (forall c :: 0 <= c < |s.callers| ==> s.callers[c].pc.AtLock?)
    && s.makers == [] && s.closedChans == {} && s.teardowns == map[] && s.ops == 0
    && s.spawned == {} && s.log == [] && s.stores == multiset{} && s.removals == multiset{}
  }

  ghost predicate Run(s: State, es: seq<Event>, t: State)
    decreases |es|
  {
    if es == [] then s == t else Enabled(s, es[0]) && Run(Step(s, es[0]), es[1..], t)
  }

  // ----- the coalescing protocol -----

  /** Every channel belongs to the one call that made it: it is open while that
      call builds or is about to close it, and closed once the call is done. */
  ghost predicate Channels(s: State) {
    && NoDup(s.makers)
    && (forall ch :: ch in s.closedChans ==> ch < |s.makers|)
    && (forall ch :: 0 <= ch < |s.makers| ==>
          && s.makers[ch] < |s.callers|
          && var pc := s.callers[s.makers[ch]].pc;
             if ch in s.closedChans then pc.Done? else pc.Building(ch) || (pc.Closing? && pc.ch == ch))
  }

  /** The building map names exactly the calls that are building. */
  ghost predicate Builders(s: State) {
    && (forall p :: p in s.h.building ==>
          && s.h.building[p] < |s.makers|
          && s.makers[s.h.building[p]] < |s.callers|
          && s.callers[s.makers[s.h.building[p]]].pid == p
          && s.callers[s.makers[s.h.building[p]]].pc.Building(s.h.building[p]))
    && (forall c :: 0 <= c < |s.callers| && s.callers[c].pc.Builds() ==>
          && s.callers[c].pid in s.h.building
          && s.h.building[s.callers[c].pid] == s.callers[c].pc.ch
          && s.callers[c].pc.ch < |s.makers| && s.makers[s.callers[c].pc.ch] == c)
    && (forall c :: 0 <= c < |s.callers| && s.callers[c].pc.Closing? ==>
          && s.callers[c].pc.ch < |s.makers| && s.makers[s.callers[c].pc.ch] == c
          && s.callers[c].pc.ch !in s.closedChans)
    && (forall c :: 0 <= c < |s.callers| && s.callers[c].pc.Waiting? ==> s.callers[c].pc.ch < |s.makers|)
  }

  /** The nil-map test of a committing builder is exactly the closed flag. */
  ghost predicate Flags(s: State) {
    && (s.h.closed ==> s.h.runtimes.None?)
    && (forall p :: p in s.h.building ==> p !in Runtimes(s.h) && (s.h.runtimes.None? ==> s.h.closed))
  }

  ghost predicate Counts(s: State) {
    forall p: Pid ::
      if s.h.closed then s.stores[p] <= s.removals[p] + 1
      else s.stores[p] == s.removals[p] + (if p in Runtimes(s.h) then 1 else 0)
  }

  ghost predicate Protocol(s: State) {
    Channels(s) && Builders(s) && Flags(s) && Counts(s)
  }

  /** A lock that does not claim the slot leaves the channels and the building map alone. */
  lemma LockProtocol(s: State, c: nat, bundle: nat)
    requires Protocol(s) && Enabled(s, Lock(c, bundle)) && !Enter(s.h, s.callers[c].pid, |s.makers|).1.Claim?
    ensures Protocol(StepLock(s, c, bundle))
  {
    IdleProtocol(s, StepLock(s, c, bundle), c);
  }

  /** A call that builds nothing moves on without claiming the slot. */
  lemma IdleProtocol(s: State, t: State, c: nat)
    requires Protocol(s) && c < |s.callers| == |t.callers| && s.callers[c].pc.Unclaimed()
    requires t.callers == s.callers[c := t.callers[c]] && t == s.(callers := t.callers, h := t.h)
    requires t.h.closed == s.h.closed && t.h.building == s.h.building && Runtimes(t.h) == Runtimes(s.h)
    requires t.h.runtimes.None? ==> s.h.runtimes.None?
    requires s.h.closed ==> t.h == s.h
    requires var pc := t.callers[c].pc; pc.AtLock? || pc.Done? || (pc.Waiting? && pc.ch < |s.makers|)
    ensures Protocol(t)
  {
    NotAMaker(s, c);
    assert Channels(t);
    assert Builders(t);
  }

  lemma NotAMaker(s: State, c: nat)
    requires Channels(s) && c < |s.callers| && s.callers[c].pc.Unclaimed()
    ensures c !in s.makers
  {
  }

  lemma ClaimProtocol(s: State, c: nat, bundle: nat)
    requires Protocol(s) && Enabled(s, Lock(c, bundle)) && Enter(s.h, s.callers[c].pid, |s.makers|).1.Claim?
    ensures Protocol(StepLock(s, c, bundle))
  {
    var t := StepLock(s, c, bundle);
    NotAMaker(s, c);
    assert t.callers[c].pc.Building(|s.makers|);
    assert Channels(t);
    assert Builders(t);
  }

  lemma CommitProtocol(s: State, c: nat)
    requires Protocol(s) && Enabled(s, CommitBuild(c))
    ensures Protocol(StepCommit(s, c))
  {
    BuildEnds(s, StepCommit(s, c), c);
  }

  /** The builder leaves the building map and is about to close its channel. */
  lemma BuildEnds(s: State, t: State, c: nat)
    requires Channels(s) && Builders(s) && c < |s.callers| == |t.callers|
    requires s.callers[c].pc.Builds()
    requires t.callers == s.callers[c := t.callers[c]] && t.callers[c].pid == s.callers[c].pid
    requires t.callers[c].pc.Closing? && t.callers[c].pc.ch == s.callers[c].pc.ch
    requires t.makers == s.makers && t.closedChans == s.closedChans && t.h.building == s.h.building - {s.callers[c].pid}
    ensures Channels(t) && Builders(t)
  {
    assert s.makers[s.callers[c].pc.ch] == c;
    assert Channels(t);
  }

  /** Steps inside spawnProfile: only the call's own progress changes. */
  lemma SpawnProtocol(s: State, t: State, c: nat)
    requires Protocol(s) && c < |s.callers| == |t.callers|
    requires t == s.(callers := t.callers, spawned := t.spawned, log := t.log)
    requires forall d :: 0 <= d < |s.callers| && d != c ==> t.callers[d] == s.callers[d]
    requires t.callers[c].pid == s.callers[c].pid
    requires exists ch :: s.callers[c].pc.Building(ch) && t.callers[c].pc.Building(ch)
    ensures Protocol(t)
  {
  }

  lemma WakeProtocol(s: State, c: nat)
    requires Protocol(s) && Enabled(s, Wake(c))
    ensures Protocol(Step(s, Wake(c)))
  {
    IdleProtocol(s, Step(s, Wake(c)), c);
  }

  lemma CloseChanProtocol(s: State, c: nat)
    requires Protocol(s) && Enabled(s, CloseChan(c))
    ensures Protocol(Step(s, CloseChan(c)))
  {
  }

  lemma ServiceProtocol(s: State, e: Event)
    requires Protocol(s) && Enabled(s, e) && !e.OfCall()
    ensures Protocol(Step(s, e))
  {
    var t := Step(s, e);
    ServiceKeepsBuilders(s, t);
    if e.Invalidate? {
      InvalidateCounts(s, e.p);
    }
  }

  /** What Invalidate, Close and teardowns leave alone. */
  lemma ServiceKeepsBuilders(s: State, t: State)
    requires Channels(s) && Builders(s) && t.callers == s.callers && t.makers == s.makers
    requires t.closedChans == s.closedChans && t.h.building == s.h.building
    ensures Channels(t) && Builders(t)
  {
  }

  lemma InvalidateCounts(s: State, p: Pid)
    requires Flags(s) && Counts(s)
    ensures Flags(StepInvalidate(s, p)) && Counts(StepInvalidate(s, p))
  {
  }

  lemma StepProtocol(s: State, e: Event)
    requires Protocol(s) && Enabled(s, e)
    ensures Protocol(Step(s, e))
  {
    match e
    case Lock(c, bundle) =>
      if Enter(s.h, s.callers[c].pid, |s.makers|).1.Claim? {
        ClaimProtocol(s, c, bundle);
      } else {
        LockProtocol(s, c, bundle);
      }
    case Wake(c) => WakeProtocol(s, c);
    case CommitBuild(c) => CommitProtocol(s, c);
    case CloseChan(c) => CloseChanProtocol(s, c);
    case Invalidate(_) => ServiceProtocol(s, e);
    case Close => ServiceProtocol(s, e);
    case Teardown(_) => ServiceProtocol(s, e);
    case _ =>
      assert s.callers[e.c].pc.Building(s.callers[e.c].pc.ch);
      SpawnProtocol(s, Step(s, e), e.c);
  }

  // ----- who owns each backend -----

  /** The parties that can hold Cleanup closures: a call that is building, the
      runtime stored for a profile, a pending Invalidate or Close. */
  datatype Holder = ByCall(c: nat) | ByStore(p: Pid) | ByTeardown(k: TKey)

  function HeldBy(pc: Pc): seq<Backend> {
    match pc
    case Spawning(_, _, got) => got
    case Failing(_, left) => left
    case Ready(_, got) => got
    case _ => []
  }

  function Held(s: State, x: Holder): seq<Backend> {
    match x
    case ByCall(c) => if c < |s.callers| then HeldBy(s.callers[c].pc) else []
    case ByStore(p) => if p in Runtimes(s.h) then Runtimes(s.h)[p].cleanups else []
    case ByTeardown(k) => if k in s.teardowns then s.teardowns[k] else []
  }

  /** Every spawned backend is held by exactly one party, once, or has been
      cleaned, once. */
  ghost predicate Ownership(s: State) {
    && (forall x: Holder :: NoDup(Held(s, x)))
    && (forall x: Holder, y: Holder, b :: b in Held(s, x) && b in Held(s, y) ==> x == y)
    && (forall x: Holder, b :: b in Held(s, x) ==> b in s.spawned && b !in s.log)
    && NoDup(s.log)
    && (forall b :: b in s.log ==> b in s.spawned)
    && (forall b :: b in s.spawned && b !in s.log ==> exists x: Holder :: b in Held(s, x))
  }

  ghost predicate FreshOps(s: State) {
    forall k :: k in s.teardowns ==> k.op < s.ops
  }

  /** Closures change hands but none is spawned or called. */
  lemma RegroupKeeps(s: State, t: State, from: Holder -> Holder, to: Holder -> Holder)
    requires Ownership(s) && t.spawned == s.spawned && t.log == s.log
    requires forall x: Holder :: Held(t, x) == [] || Held(t, x) == Held(s, from(x))
    requires forall x: Holder, y: Holder :: Held(t, x) != [] && Held(t, y) != [] && from(x) == from(y) ==> x == y
    requires forall x: Holder :: Held(s, x) == [] || Held(t, to(x)) == Held(s, x)
    ensures Ownership(t)
  {
    forall b | b in t.spawned && b !in t.log ensures exists x: Holder :: b in Held(t, x) {
      var x: Holder :| b in Held(s, x);
      assert b in Held(t, to(x));
    }
  }

  lemma SpawnKeeps(s: State, t: State, x: Holder, b: Backend)
    requires Ownership(s) && b !in s.spawned && t.spawned == s.spawned + {b} && t.log == s.log
    requires Held(t, x) == Held(s, x) + [b]
    requires forall y: Holder :: y != x ==> Held(t, y) == Held(s, y)
    ensures Ownership(t)
  {
    forall d | d in t.spawned && d !in t.log ensures exists y: Holder :: d in Held(t, y) {
      if d == b {
        assert d in Held(t, x);
      } else {
        var y: Holder :| d in Held(s, y);
        assert d in Held(t, y);
      }
    }
  }

  /** The first `n` closures of holder `x` are called. */
  ghost predicate Cleans(s: State, t: State, x: Holder, n: nat) {
    && n <= |Held(s, x)| && t.spawned == s.spawned
    && t.log == s.log + Held(s, x)[..n] && Held(t, x) == Held(s, x)[n..]
    && forall y: Holder :: y != x ==> Held(t, y) == Held(s, y)
  }

  lemma CleanKeeps(s: State, t: State, x: Holder, n: nat)
    requires Ownership(s) && Cleans(s, t, x, n)
    ensures Ownership(t)
  {
    CleanLog(s, t, x, n);
    forall y: Holder ensures NoDup(Held(t, y)) && forall b :: b in Held(t, y) ==> b in Held(s, y) && b !in t.log {
      StillHeld(s, t, x, n, y);
    }
    forall d | d in t.spawned && d !in t.log ensures exists y: Holder :: d in Held(t, y) {
      SomeHolder(s, t, x, n, d);
    }
  }

  lemma CleanLog(s: State, t: State, x: Holder, n: nat)
    requires Ownership(s) && Cleans(s, t, x, n)
    ensures NoDup(t.log) && forall b :: b in t.log ==> b in t.spawned
  {
    SplitNoDup(Held(s, x), n);
    NoDupConcat(s.log, Held(s, x)[..n]);
  }

  lemma StillHeld(s: State, t: State, x: Holder, n: nat, y: Holder)
    requires Ownership(s) && Cleans(s, t, x, n)
    ensures NoDup(Held(t, y)) && forall b :: b in Held(t, y) ==> b in Held(s, y) && b !in t.log
  {
    SplitNoDup(Held(s, x), n);
  }

  lemma SomeHolder(s: State, t: State, x: Holder, n: nat, d: Backend)
    requires Ownership(s) && Cleans(s, t, x, n) && d in t.spawned && d !in t.log
    ensures exists y: Holder :: d in Held(t, y)
  {
    SplitNoDup(Held(s, x), n);
    var y: Holder :| d in Held(s, y);
    assert d in Held(t, y);
  }

  lemma StepOwnership(s: State, e: Event)
    requires Protocol(s) && Ownership(s) && FreshOps(s) && Enabled(s, e)
    ensures Ownership(Step(s, e)) && FreshOps(Step(s, e))
  {
    match e
    case SpawnOk(_, _) => WorkOwnership(s, e);
    case FailClean(_) => WorkOwnership(s, e);
    case Teardown(_) => WorkOwnership(s, e);
    case CommitBuild(c) => CommitOwnership(s, c);
    case Invalidate(p) => InvalidateOwnership(s, p);
    case Close => CloseOwnership(s);
    case _ => QuietOwnership(s, e);
  }

  lemma WorkOwnership(s: State, e: Event)
    requires Ownership(s) && FreshOps(s) && Enabled(s, e) && (e.SpawnOk? || e.FailClean? || e.Teardown?)
    ensures Ownership(Step(s, e)) && FreshOps(Step(s, e))
  {
    var t := Step(s, e);
    match e
    case SpawnOk(c, b) => SpawnKeeps(s, t, ByCall(c), b);
    case FailClean(c) => CleanKeeps(s, t, ByCall(c), 1);
    case Teardown(k) => CleanKeeps(s, t, ByTeardown(k), 1);
  }

  lemma QuietOwnership(s: State, e: Event)
    requires Ownership(s) && FreshOps(s) && Enabled(s, e)
    requires e.Lock? || e.Wake? || e.Skip? || e.SpawnErr? || e.Assemble? || e.CloseChan?
    ensures Ownership(Step(s, e)) && FreshOps(Step(s, e))
  {
    SameHoldings(s, e);
    RegroupKeeps(s, Step(s, e), x => x, x => x);
  }

  lemma SameHoldings(s: State, e: Event)
    requires Enabled(s, e) && (e.Lock? || e.Wake? || e.Skip? || e.SpawnErr? || e.Assemble? || e.CloseChan?)
    ensures var t := Step(s, e);
            && t.spawned == s.spawned && t.log == s.log && t.teardowns == s.teardowns && t.ops == s.ops
            && forall x: Holder :: Held(t, x) == Held(s, x)
  {
  }

  lemma InvalidateOwnership(s: State, p: Pid)
    requires Ownership(s) && FreshOps(s)
    ensures Ownership(StepInvalidate(s, p)) && FreshOps(StepInvalidate(s, p))
  {
    var st, td := ByStore(p), ByTeardown(TKey(s.ops, p));
    var swap := (x: Holder) => if x == td then st else if x == st then td else x;
    RegroupKeeps(s, StepInvalidate(s, p), swap, swap);
  }

  /** The closures of call `c` become those of the runtime stored for `p`. */
  lemma StoredKeeps(s: State, t: State, c: nat, p: Pid)
    requires Ownership(s) && t.spawned == s.spawned && t.log == s.log
    requires Held(s, ByStore(p)) == [] == Held(t, ByCall(c)) && Held(t, ByStore(p)) == Held(s, ByCall(c))
    requires forall x: Holder :: x != ByStore(p) && x != ByCall(c) ==> Held(t, x) == Held(s, x)
    ensures Ownership(t)
  {
    var swap := (x: Holder) => if x == ByStore(p) then ByCall(c) else if x == ByCall(c) then ByStore(p) else x;
    RegroupKeeps(s, t, swap, swap);
  }

  lemma CommitOwnership(s: State, c: nat)
    requires Protocol(s) && Ownership(s) && Enabled(s, CommitBuild(c))
    requires FreshOps(s)
    ensures Ownership(StepCommit(s, c)) && FreshOps(StepCommit(s, c))
  {
    var t := StepCommit(s, c);
    var p := s.callers[c].pid;
    if s.callers[c].pc.Ready? && s.h.runtimes.Some? {
      StoredKeeps(s, t, c, p);
    } else {
      CleanKeeps(s, t, ByCall(c), |Held(s, ByCall(c))|);
    }
  }

  lemma CloseOwnership(s: State)
    requires Ownership(s) && FreshOps(s)
    ensures Ownership(StepClose(s)) && FreshOps(StepClose(s))
  {
    var t := StepClose(s);
    var n := s.ops;
    var from := (x: Holder) => if x.ByTeardown? && x.k.op == n then ByStore(x.k.pid) else x;
    var to := (x: Holder) => if x.ByStore? then ByTeardown(TKey(n, x.p)) else x;
    RegroupKeeps(s, t, from, to);
  }

  // ----- safety over whole runs -----

  ghost predicate Inv(s: State) {
    Protocol(s) && Ownership(s) && FreshOps(s)
  }

  lemma InitInv(s: State)
    requires Init(s)
    ensures Inv(s)
  {
    assert forall x: Holder :: Held(s, x) == [];
  }

  lemma StepInv(s: State, e: Event)
    requires Inv(s) && Enabled(s, e)
    ensures Inv(Step(s, e))
  {
    StepProtocol(s, e);
    StepOwnership(s, e);
  }

  lemma {:induction false} RunInv(s: State, es: seq<Event>, t: State)
    requires Inv(s) && Run(s, es, t)
    ensures Inv(t)
    decreases |es|
  {
    if es != [] {
      StepInv(s, es[0]);
      RunInv(Step(s, es[0]), es[1..], t);
    }
  }

  lemma Reachable(s: State, es: seq<Event>, t: State)
    requires Init(s) && Run(s, es, t)
    ensures Inv(t)
  {
    InitInv(s);
    RunInv(s, es, t);
  }

  /** Over every interleaving, a spawned backend is in exactly one of: a build,
      a stored runtime, a pending teardown, the log of called cleanups; and no
      cleanup is ever called twice. */
  lemma ExactlyOneOwner(s: State, es: seq<Event>, t: State, b: Backend)
    requires Init(s) && Run(s, es, t) && b in t.spawned
    ensures multiset(t.log)[b] <= 1
    ensures b in t.log <==> !exists x: Holder :: b in Held(t, x)
    ensures forall x: Holder, y: Holder :: b in Held(t, x) && b in Held(t, y) ==> x == y && multiset(Held(t, x))[b] == 1
  {
    Reachable(s, es, t);
    NoDupCounts(t.log, b);
    forall x: Holder | b in Held(t, x) ensures multiset(Held(t, x))[b] == 1 {
      NoDupCounts(Held(t, x), b);
    }
  }

  /** Close has run, and every getOrCreate, Invalidate and Close call has returned. */
  ghost predicate Quiescent(s: State) {
    && s.h.closed
    && (forall c :: 0 <= c < |s.callers| ==> s.callers[c].pc.Done?)
    && (forall k :: k in s.teardowns ==> s.teardowns[k] == [])
  }

  /** No sandbox leaks: at quiescence every backend ever spawned has had its
      Cleanup called exactly once. */
  lemma CleanedExactlyOnce(s: State, es: seq<Event>, t: State)
    requires Init(s) && Run(s, es, t) && Quiescent(t)
    ensures multiset(t.log) == multiset(t.spawned)
  {
    Reachable(s, es, t);
    assert forall x: Holder :: Held(t, x) == [];
    forall b: Backend ensures multiset(t.log)[b] == multiset(t.spawned)[b] {
      NoDupCounts(t.log, b);
    }
  }

  predicate BuildsOn(s: State, c: nat, ch: nat) { c < |s.callers| && s.callers[c].pc.Building(ch) }

  /** Concurrent cold starts coalesce: one build per profile, no more
      spawnProfile runs than calls, and no more stored runtimes than one plus
      the Invalidates that removed one. */
  lemma Coalescing(s: State, es: seq<Event>, t: State)
    requires Init(s) && Run(s, es, t)
    ensures forall c: nat, d: nat, x: nat, y: nat ::
      BuildsOn(t, c, x) && BuildsOn(t, d, y) && t.callers[c].pid == t.callers[d].pid ==> c == d
    ensures |t.makers| <= |t.callers|
    ensures forall p: Pid :: t.stores[p] <= 1 + t.removals[p]
  {
    Reachable(s, es, t);
    DistinctBound(t.makers, |t.callers|);
  }

  lemma {:induction false} DistinctBound(q: seq<nat>, n: nat)
    requires NoDup(q) && forall i :: 0 <= i < |q| ==> q[i] < n
    ensures |q| <= n
  {
    NoDupSet(q);
    BoundedSet(Elems(q), n);
  }

  ghost function Elems(q: seq<nat>): set<nat> { set x | x in q }

  lemma {:induction false} NoDupSet(q: seq<nat>)
    requires NoDup(q)
    ensures |Elems(q)| == |q|
  {
    if q != [] {
      NoDupSet(q[1..]);
      assert Elems(q) == {q[0]} + Elems(q[1..]);
      assert q[0] !in q[1..];
    }
  }

  lemma {:induction false} BoundedSet(x: set<nat>, n: nat)
    requires forall i :: i in x ==> i < n
    ensures |x| <= n
  {
    if n > 0 {
      BoundedSet(x - {n - 1}, n - 1);
    } else {
      assert x == {};
    }
  }

  predicate HasRuntime(pc: Pc) { (pc.Closing? || pc.Done?) && pc.res.Got? }

  lemma ClosedStep(s: State, e: Event)
    requires Inv(s) && Enabled(s, e) && s.h.closed
    ensures var t := Step(s, e);
            && t.h.closed && t.h.runtimes.None? && t.stores == s.stores && |t.callers| == |s.callers|
            && forall c :: 0 <= c < |s.callers| && HasRuntime(t.callers[c].pc) ==> HasRuntime(s.callers[c].pc)
  {
  }

  /** After Close, no lock acquisition stores a runtime, and a call returns a
      runtime only if it already had one when Close took the lock. */
  lemma {:induction false} NothingAfterClose(s: State, es: seq<Event>, t: State)
    requires Inv(s) && s.h.closed && Run(s, es, t)
    ensures t.h.closed && t.h.runtimes.None? && t.stores == s.stores && |t.callers| == |s.callers|
    ensures forall c :: 0 <= c < |s.callers| && HasRuntime(t.callers[c].pc) ==> HasRuntime(s.callers[c].pc)
    decreases |es|
  {
    if es != [] {
      var u := Step(s, es[0]);
      ClosedStep(s, es[0]);
      StepInv(s, es[0]);
      NothingAfterClose(u, es[1..], t);
    }
  }

  // ----- what an Invalidate leaves behind -----

  /** A build claimed before this state can still be stored for `p`. */
  predicate StaleBuild(s: State, p: Pid) {
    && !s.h.closed && p in s.h.building
    && s.h.building[p] < |s.makers| && s.makers[s.h.building[p]] < |s.callers|
    && var pc := s.callers[s.makers[s.h.building[p]]].pc;
       pc.Spawning? || pc.Ready?
  }

  /** Builds claimed earlier, by the calls in `before`, no longer reach a store for `p`. */
  ghost predicate OldBuildsSpent(s: State, p: Pid, before: seq<nat>) {
    && (p in Runtimes(s.h) ==> Runtimes(s.h)[p].builder !in before)
    && (forall c :: c in before ==> c < |s.callers|)
    && (!s.h.closed ==> forall c :: c in before && s.callers[c].pid == p ==>
          var pc := s.callers[c].pc; pc.Failing? || pc.Closing? || pc.Done?)
    && (forall c :: c in before ==> !s.callers[c].pc.Unclaimed())
  }

  lemma SpentAtInvalidate(s: State, p: Pid)
    requires Protocol(s) && !StaleBuild(s, p)
    ensures OldBuildsSpent(StepInvalidate(s, p), p, s.makers)
  {
    forall c | c in s.makers
      ensures c < |s.callers| && !s.callers[c].pc.Unclaimed()
      ensures !s.h.closed && s.callers[c].pid == p ==> !s.callers[c].pc.Spawning? && !s.callers[c].pc.Ready?
    {
      var ch :| 0 <= ch < |s.makers| && s.makers[ch] == c;
    }
  }

  lemma SpentStep(s: State, e: Event, p: Pid, before: seq<nat>)
    requires Protocol(s) && Enabled(s, e) && OldBuildsSpent(s, p, before)
    ensures OldBuildsSpent(Step(s, e), p, before)
  {
    match e
    case CommitBuild(c) => SpentCommit(s, c, p, before);
    case Lock(c, bundle) => SpentLock(s, c, bundle, p, before);
    case _ =>
  }

  lemma SpentCommit(s: State, c: nat, p: Pid, before: seq<nat>)
    requires Protocol(s) && Enabled(s, CommitBuild(c)) && OldBuildsSpent(s, p, before)
    ensures OldBuildsSpent(StepCommit(s, c), p, before)
  {
  }

  lemma SpentLock(s: State, c: nat, bundle: nat, p: Pid, before: seq<nat>)
    requires Protocol(s) && Enabled(s, Lock(c, bundle)) && OldBuildsSpent(s, p, before)
    ensures OldBuildsSpent(StepLock(s, c, bundle), p, before)
  {
    assert c !in before;
  }

  lemma {:induction false} SpentRun(s: State, es: seq<Event>, t: State, p: Pid, before: seq<nat>)
    requires Protocol(s) && Run(s, es, t) && OldBuildsSpent(s, p, before)
    ensures OldBuildsSpent(t, p, before)
    decreases |es|
  {
    if es != [] {
      StepProtocol(s, es[0]);
      SpentStep(s, es[0], p, before);
      SpentRun(Step(s, es[0]), es[1..], t, p, before);
    }
  }

  /** A build that has not failed may go on, with every server left skipped, to be stored. */
  lemma {:induction false} BuildCanBeStored(s: State, c: nat) returns (es: seq<Event>, t: State)
    requires c < |s.callers| && (s.callers[c].pc.Spawning? || s.callers[c].pc.Ready?) && s.h.runtimes.Some?
    ensures Run(s, es, t)
    ensures var p := s.callers[c].pid; p in Runtimes(t.h) && Runtimes(t.h)[p].builder == c
    decreases if s.callers[c].pc.Ready? then 0 else 1 + s.callers[c].pc.todo
  {
    var pc := s.callers[c].pc;
    var e := if pc.Ready? then CommitBuild(c) else if pc.todo == 0 then Assemble(c) else Skip(c);
    if pc.Ready? {
      t := Step(s, e);
      es := [];
    } else {
      es, t := BuildCanBeStored(Step(s, e), c);
    }
    assert ([e] + es)[1..] == es;
    es := [e] + es;
  }

  /** The run ends with a runtime stored for `p` that a call in `before` built. */
  ghost predicate EndsStale(u: State, p: Pid, before: seq<nat>, es: seq<Event>, t: State) {
    Run(u, es, t) && p in Runtimes(t.h) && Runtimes(t.h)[p].builder in before
  }

  /** Whether an Invalidate is final: some run goes on to store for the profile a
      runtime claimed, and so possibly read, before it, exactly when at that moment
      an unfailed build of the profile is under way on an open host. */
  lemma InvalidateIsFinalExactly(s: State, p: Pid)
    requires Inv(s)
    ensures StaleBuild(s, p) <==> exists es, t :: EndsStale(Step(s, Invalidate(p)), p, s.makers, es, t)
  {
    var u := Step(s, Invalidate(p));
    StepProtocol(s, Invalidate(p));
    if StaleBuild(s, p) {
      var es, t := BuildCanBeStored(u, s.makers[s.h.building[p]]);
      assert EndsStale(u, p, s.makers, es, t);
    } else {
      SpentAtInvalidate(s, p);
      forall es, t ensures !EndsStale(u, p, s.makers, es, t) {
        if Run(u, es, t) {
          SpentRun(u, es, t, p, s.makers);
        }
      }
    }
  }

  // ----- every call returns -----

  ghost function Weight(pc: Pc, closedChans: set<nat>): nat {
    match pc
    case AtLock => 1
    case Waiting(ch) => if ch in closedChans then 2 else 0
    case Spawning(_, todo, got) => 3 + 2 * todo + |got|
    case Failing(_, left) => 2 + |left|
    case Ready(_, _) => 2
    case Closing(_, _) => 1
    case Done(_) => 0
  }

  ghost function Unreturned(q: seq<Caller>): nat {
    if q == [] then 0 else (if q[0].pc.Done? then 0 else 1) + Unreturned(q[1..])
  }

  ghost function Unclaimed(q: seq<Caller>): nat {
    if q == [] then 0 else (if q[0].pc.Unclaimed() then 1 else 0) + Unclaimed(q[1..])
  }

  ghost function Work(q: seq<Caller>, closedChans: set<nat>): nat {
    if q == [] then 0 else Weight(q[0].pc, closedChans) + Work(q[1..], closedChans)
  }

  lemma {:induction false} SumsUpdate(q: seq<Caller>, c: nat, x: Caller, cl: set<nat>)
    requires c < |q|
    ensures Unreturned(q[c := x]) == Unreturned(q) - (if q[c].pc.Done? then 0 else 1) + (if x.pc.Done? then 0 else 1)
    ensures Unclaimed(q[c := x]) ==
            Unclaimed(q) - (if q[c].pc.Unclaimed() then 1 else 0) + (if x.pc.Unclaimed() then 1 else 0)
    ensures Work(q[c := x], cl) == Work(q, cl) - Weight(q[c].pc, cl) + Weight(x.pc, cl)
  {
    if c == 0 {
      assert q[0 := x][1..] == q[1..];
    } else {
      assert q[c := x][1..] == q[1..][c - 1 := x];
      SumsUpdate(q[1..], c - 1, x, cl);
    }
  }

  /** Lexicographic progress: returned calls, then claims, then local work. */
  ghost predicate Below(t: State, s: State) {
    var a, b := Unreturned(t.callers), Unreturned(s.callers);
    var c, d := Unclaimed(t.callers), Unclaimed(s.callers);
    a < b || (a == b && (c < d || (c == d && Work(t.callers, t.closedChans) < Work(s.callers, s.closedChans))))
  }

  lemma CallStepProgress(s: State, e: Event)
    requires Inv(s) && Enabled(s, e) && e.OfCall()
    ensures Below(Step(s, e), s)
  {
    if e.Lock? {
      LockImproves(s, e.c, e.bundle);
    } else {
      WorkImproves(s, e);
    }
    ImprovesIsBelow(s, Step(s, e), e.c);
  }

  lemma LockImproves(s: State, c: nat, bundle: nat)
    requires Protocol(s) && Enabled(s, Lock(c, bundle))
    ensures var t := StepLock(s, c, bundle);
            && |t.callers| == |s.callers| && t.callers == s.callers[c := t.callers[c]]
            && t.closedChans == s.closedChans && Improves(s.callers[c].pc, t.callers[c].pc, s.closedChans)
  {
  }

  lemma WorkImproves(s: State, e: Event)
    requires Enabled(s, e) && e.OfCall() && !e.Lock?
    ensures var t := Step(s, e);
            && |t.callers| == |s.callers| && t.callers == s.callers[e.c := t.callers[e.c]]
            && (t.callers[e.c].pc.Done? || t.closedChans == s.closedChans)
            && Improves(s.callers[e.c].pc, t.callers[e.c].pc, s.closedChans)
  {
  }

  /** One call returns, claims the slot, or does local work. */
  ghost predicate Improves(a: Pc, b: Pc, closedChans: set<nat>) {
    || (!a.Done? && b.Done?)
    || (a.Unclaimed() && !b.Unclaimed() && !b.Done?)
    || (a.Done? == b.Done? && a.Unclaimed() == b.Unclaimed() && Weight(b, closedChans) < Weight(a, closedChans))
  }

  lemma ImprovesIsBelow(s: State, t: State, c: nat)
    requires c < |s.callers| == |t.callers| && t.callers == s.callers[c := t.callers[c]]
    requires Improves(s.callers[c].pc, t.callers[c].pc, s.closedChans)
    requires t.callers[c].pc.Done? || t.closedChans == s.closedChans
    ensures Below(t, s)
  {
    SumsUpdate(s.callers, c, t.callers[c], s.closedChans);
  }

  lemma ServiceStepNeutral(s: State, e: Event)
    requires Enabled(s, e) && !e.OfCall()
    ensures Step(s, e).callers == s.callers && Step(s, e).closedChans == s.closedChans
  {
  }

  /** No deadlock: while some call has not returned, some call can take a step. */
  lemma SomeCallCanMove(s: State, c: nat)
    requires Inv(s) && c < |s.callers| && !s.callers[c].pc.Done?
    ensures exists e: Event :: e.OfCall() && Enabled(s, e)
  {
    var pc := s.callers[c].pc;
    if pc.Waiting? && pc.ch !in s.closedChans {
      BusyCanMove(s, s.makers[pc.ch]);
    } else if pc.Waiting? {
      assert Enabled(s, Wake(c));
    } else if pc.AtLock? {
      assert Enabled(s, Lock(c, 0));
    } else {
      BusyCanMove(s, c);
    }
  }

  lemma BusyCanMove(s: State, c: nat)
    requires c < |s.callers| && !s.callers[c].pc.Done? && !s.callers[c].pc.Unclaimed()
    ensures exists e: Event :: e.OfCall() && Enabled(s, e)
  {
    var pc := s.callers[c].pc;
    var e := if pc.Spawning? then SpawnErr(c) else if pc.Closing? then CloseChan(c)
             else if pc.Failing? && pc.left != [] then FailClean(c) else CommitBuild(c);
    assert Enabled(s, e);
  }

  ghost predicate Trace(run: nat -> State, ev: nat -> Event) {
    forall i: nat :: Enabled(run(i), ev(i)) && run(i + 1) == Step(run(i), ev(i))
  }

  /** The scheduler never stops running calls while one of them can move. */
  ghost predicate Fair(run: nat -> State, ev: nat -> Event) {
    forall i: nat :: (exists e: Event :: e.OfCall() && Enabled(run(i), e)) ==> exists j: nat :: j >= i && ev(j).OfCall()
  }

  ghost predicate AllReturned(s: State) {
    forall c :: 0 <= c < |s.callers| ==> s.callers[c].pc.Done?
  }

  lemma {:induction false} TraceInv(run: nat -> State, ev: nat -> Event, i: nat)
    requires Trace(run, ev) && Init(run(0))
    ensures Inv(run(i))
  {
    if i == 0 {
      InitInv(run(0));
    } else {
      TraceInv(run, ev, i - 1);
      StepInv(run(i - 1), ev(i - 1));
    }
  }

  /** Between call steps nothing moves backwards. */
  lemma {:induction false} QuietStretch(run: nat -> State, ev: nat -> Event, i: nat, j: nat)
    requires Trace(run, ev) && i <= j && forall k: nat :: i <= k < j ==> !ev(k).OfCall()
    ensures run(j).callers == run(i).callers && run(j).closedChans == run(i).closedChans
    decreases j - i
  {
    if i < j {
      ServiceStepNeutral(run(i), ev(i));
      QuietStretch(run, ev, i + 1, j);
    }
  }

  lemma {:induction false} FirstCallStep(ev: nat -> Event, i: nat, j: nat) returns (k: nat)
    requires i <= j && ev(j).OfCall()
    ensures i <= k <= j && ev(k).OfCall() && forall m: nat :: i <= m < k ==> !ev(m).OfCall()
    decreases j - i
  {
    if ev(i).OfCall() {
      k := i;
    } else {
      k := FirstCallStep(ev, i + 1, j);
    }
  }

  /** In every fair interleaving with any finite number of calls, any number of
      Invalidates and Closes, and any returning spawn outcomes, all calls return. */
  lemma EveryCallReturns(run: nat -> State, ev: nat -> Event)
    requires Trace(run, ev) && Init(run(0)) && Fair(run, ev)
    ensures exists n: nat :: AllReturned(run(n))
  {
    var n := ReturnsFrom(run, ev, 0);
  }

  lemma {:induction false} ReturnsFrom(run: nat -> State, ev: nat -> Event, i: nat) returns (n: nat)
    requires Trace(run, ev) && Init(run(0)) && Fair(run, ev)
    ensures AllReturned(run(n))
    decreases Unreturned(run(i).callers), Unclaimed(run(i).callers), Work(run(i).callers, run(i).closedChans)
  {
    if AllReturned(run(i)) {
      n := i;
    } else {
      var c :| 0 <= c < |run(i).callers| && !run(i).callers[c].pc.Done?;
      TraceInv(run, ev, i);
      SomeCallCanMove(run(i), c);
      var j: nat :| j >= i && ev(j).OfCall();
      var k := FirstCallStep(ev, i, j);
      QuietStretch(run, ev, i, k);
      TraceInv(run, ev, k);
      CallStepProgress(run(k), ev(k));
      n := ReturnsFrom(run, ev, k + 1);
    }
  }
}
