/** What getOrCreate of internal/gateway/profilehost.go answers: which runtime a
    call returns and why a call returns an error, over every run of ProfileRuns. */
module ProfileResults {
  import opened Common
  import opened ProfileHost
  import opened ProfileRuns

  function Answer(pc: Pc): Option<Result> {
    if pc.Closing? || pc.Done? then Some(pc.res) else None
  }

  predicate StoredFor(s: State, p: Pid, rt: Runtime) { p in Runtimes(s.h) && Runtimes(s.h)[p] == rt }

  /** The step in which call `c` takes `rt`: it finds it stored for its profile, or
      has just stored it there. */
  predicate Takes(s: State, e: Event, c: nat, rt: Runtime)
    requires Enabled(s, e) && c < |s.callers|
  {
    || (e.Lock? && e.c == c && StoredFor(s, s.callers[c].pid, rt))
    || (e.CommitBuild? && e.c == c && StoredFor(Step(s, e), s.callers[c].pid, rt))
  }

  /** The step in which call `c` is turned away: the host is closed, or its build failed. */
  predicate TurnsAway(s: State, e: Event, c: nat)
    requires Enabled(s, e) && c < |s.callers|
  {
    || (e.Lock? && e.c == c && s.h.closed)
    || (e.CommitBuild? && e.c == c && (s.h.closed || s.callers[c].pc.Failing?))
  }

  ghost predicate Took(s: State, es: seq<Event>, c: nat, rt: Runtime)
    decreases |es|
  {
    && es != [] && Enabled(s, es[0]) && c < |s.callers|
    && (Takes(s, es[0], c, rt) || Took(Step(s, es[0]), es[1..], c, rt))
  }

  ghost predicate TurnedAway(s: State, es: seq<Event>, c: nat)
    decreases |es|
  {
    && es != [] && Enabled(s, es[0]) && c < |s.callers|
    && (TurnsAway(s, es[0], c) || TurnedAway(Step(s, es[0]), es[1..], c))
  }

  // ----- one step -----

  lemma SameCallers(s: State, e: Event)
    requires Enabled(s, e)
    ensures |Step(s, e).callers| == |s.callers|
    ensures forall c :: 0 <= c < |s.callers| ==> Step(s, e).callers[c].pid == s.callers[c].pid
  {
  }

  lemma LockAnswer(s: State, c: nat, bundle: nat, rt: Runtime)
    requires Protocol(s) && Enabled(s, Lock(c, bundle))
    ensures var a := Answer(Step(s, Lock(c, bundle)).callers[c].pc);
            && (a == Some(Got(rt)) <==> StoredFor(s, s.callers[c].pid, rt))
            && (a == Some(Err) <==> s.h.closed)
  {
  }

  lemma CommitAnswer(s: State, c: nat, rt: Runtime)
    requires Protocol(s) && Enabled(s, CommitBuild(c))
    ensures var t := Step(s, CommitBuild(c));
            && (Answer(t.callers[c].pc) == Some(Got(rt)) <==> StoredFor(t, s.callers[c].pid, rt))
            && (Answer(t.callers[c].pc) == Some(Err) <==> s.h.closed || s.callers[c].pc.Failing?)
  {
    assert s.callers[c].pid in s.h.building;
  }

  lemma OtherAnswer(s: State, e: Event, c: nat)
    requires Enabled(s, e) && c < |s.callers| && !((e.Lock? || e.CommitBuild?) && e.c == c)
    ensures Answer(Step(s, e).callers[c].pc) == Answer(s.callers[c].pc)
  {
  }

  lemma AnswerStep(s: State, e: Event, c: nat, rt: Runtime)
    requires Protocol(s) && Enabled(s, e) && c < |s.callers|
    ensures c < |Step(s, e).callers|
    ensures var a, b := Answer(s.callers[c].pc), Answer(Step(s, e).callers[c].pc);
            && (b == Some(Got(rt)) <==> a == Some(Got(rt)) || Takes(s, e, c, rt))
            && (b == Some(Err) <==> a == Some(Err) || TurnsAway(s, e, c))
  {
    SameCallers(s, e);
    if e.Lock? && e.c == c {
      LockAnswer(s, c, e.bundle, rt);
    } else if e.CommitBuild? && e.c == c {
      CommitAnswer(s, c, rt);
    } else {
      OtherAnswer(s, e, c);
    }
  }

  // ----- every run -----

  lemma {:induction false} AnswerFrom(s: State, es: seq<Event>, t: State, c: nat, rt: Runtime)
    requires Protocol(s) && Run(s, es, t) && c < |s.callers|
    ensures c < |t.callers|
    ensures var a, b := Answer(s.callers[c].pc), Answer(t.callers[c].pc);
            && (b == Some(Got(rt)) <==> a == Some(Got(rt)) || Took(s, es, c, rt))
            && (b == Some(Err) <==> a == Some(Err) || TurnedAway(s, es, c))
    decreases |es|
  {
    if es != [] {
      AnswerStep(s, es[0], c, rt);
      StepProtocol(s, es[0]);
      AnswerFrom(Step(s, es[0]), es[1..], t, c, rt);
    }
  }

  /** Stored runtimes, and those calls have, were built for their profile. */
  ghost predicate OwnRuntimes(s: State) {
    && (forall p :: p in Runtimes(s.h) ==> BuiltFor(s, Runtimes(s.h)[p], p))
    && (forall c :: 0 <= c < |s.callers| && HasRuntime(s.callers[c].pc) ==>
          BuiltFor(s, s.callers[c].pc.res.rt, s.callers[c].pid))
  }

  /** `rt` is what a call for profile `p` has built and answered itself. */
  predicate BuiltFor(s: State, rt: Runtime, p: Pid) {
    && rt.builder < |s.callers| && s.callers[rt.builder].pid == p
    && Answer(s.callers[rt.builder].pc) == Some(Got(rt))
  }

  lemma BuiltStays(s: State, e: Event, rt: Runtime, p: Pid)
    requires Protocol(s) && Enabled(s, e) && BuiltFor(s, rt, p)
    ensures BuiltFor(Step(s, e), rt, p)
  {
    SameCallers(s, e);
    AnswerStep(s, e, rt.builder, rt);
  }

  lemma OwnStep(s: State, e: Event)
    requires Protocol(s) && Enabled(s, e) && OwnRuntimes(s)
    ensures OwnRuntimes(Step(s, e))
  {
    var t := Step(s, e);
    SameCallers(s, e);
    OwnStored(s, e);
    forall c | 0 <= c < |t.callers| && HasRuntime(t.callers[c].pc)
      ensures BuiltFor(t, t.callers[c].pc.res.rt, t.callers[c].pid)
    {
      var rt := t.callers[c].pc.res.rt;
      AnswerStep(s, e, c, rt);
      if Answer(s.callers[c].pc) == Some(Got(rt)) || e.Lock? {
        BuiltStays(s, e, rt, s.callers[c].pid);
      }
    }
  }

  lemma OwnStored(s: State, e: Event)
    requires Protocol(s) && Enabled(s, e) && OwnRuntimes(s)
    ensures var t := Step(s, e); forall p :: p in Runtimes(t.h) ==> BuiltFor(t, Runtimes(t.h)[p], p)
  {
    var t := Step(s, e);
    SameCallers(s, e);
    forall p | p in Runtimes(t.h) ensures BuiltFor(t, Runtimes(t.h)[p], p) {
      var rt := Runtimes(t.h)[p];
      StoredComesFrom(s, e, p);
      if StoredFor(s, p, rt) {
        BuiltStays(s, e, rt, p);
      } else {
        AnswerStep(s, e, e.c, rt);
      }
    }
  }

  /** What is stored after a step was stored before it, or the committing call built it. */
  lemma StoredComesFrom(s: State, e: Event, p: Pid)
    requires Enabled(s, e) && p in Runtimes(Step(s, e).h)
    ensures var rt := Runtimes(Step(s, e).h)[p];
            StoredFor(s, p, rt) || (e.CommitBuild? && s.callers[e.c].pid == p && rt.builder == e.c)
  {
  }

  lemma {:induction false} OwnRun(s: State, es: seq<Event>, t: State)
    requires Protocol(s) && OwnRuntimes(s) && Run(s, es, t)
    ensures OwnRuntimes(t)
    decreases |es|
  {
    if es != [] {
      OwnStep(s, es[0]);
      StepProtocol(s, es[0]);
      OwnRun(Step(s, es[0]), es[1..], t);
    }
  }

  /** Over every run, a call has got a runtime exactly when it took one that was
      stored for its profile at that step, built by a call of the same profile; and
      it has got an error exactly when it was turned away. */
  lemma AnswersExactly(s: State, es: seq<Event>, t: State, c: nat, rt: Runtime)
    requires Init(s) && Run(s, es, t) && c < |s.callers|
    ensures c < |t.callers|
    ensures Answer(t.callers[c].pc) == Some(Got(rt)) <==> Took(s, es, c, rt)
    ensures Answer(t.callers[c].pc) == Some(Err) <==> TurnedAway(s, es, c)
    ensures Took(s, es, c, rt) ==> BuiltFor(t, rt, t.callers[c].pid)
  {
    InitInv(s);
    AnswerFrom(s, es, t, c, rt);
    OwnRun(s, es, t);
  }

  // ----- what a runtime is made of -----

  /** The backends spawned for call `c`, in order. */
  function SpawnedFor(es: seq<Event>, c: nat): seq<Backend> {
    if es == [] then [] else (if es[0].SpawnOk? && es[0].c == c then [es[0].b] else []) + SpawnedFor(es[1..], c)
  }

  /** The names call `c` skipped. */
  function SkippedFor(es: seq<Event>, c: nat): nat {
    if es == [] then 0 else (if es[0] == Skip(c) then 1 else 0) + SkippedFor(es[1..], c)
  }

  /** Call `c` claimed its profile's build in this run, with a bundle of `n` names. */
  ghost predicate Claimed(s: State, es: seq<Event>, c: nat, n: nat)
    decreases |es|
  {
    && es != [] && Enabled(s, es[0])
    && (|| (es[0] == Lock(c, n) && c < |s.callers| && Enter(s.h, s.callers[c].pid, |s.makers|).1.Claim?)
        || Claimed(Step(s, es[0]), es[1..], c, n))
  }

  /** A build over `n` names has spawned these backends and skipped so many names. */
  predicate Builds(pc: Pc, c: nat, backends: seq<Backend>, skipped: nat, n: nat) {
    match pc
    case AtLock => false
    case Waiting(_) => false
    case Spawning(_, todo, got) => got == backends && todo + |backends| + skipped == n
    case Ready(_, got) => got == backends && |backends| + skipped == n
    case Failing(_, _) => true
    case Closing(_, res) => res.Got? && res.rt.builder == c ==> res.rt.cleanups == backends && |backends| + skipped == n
    case Done(res) => res.Got? && res.rt.builder == c ==> res.rt.cleanups == backends && |backends| + skipped == n
  }

  lemma BuildsStep(s: State, e: Event, c: nat, backends: seq<Backend>, skipped: nat, n: nat)
    requires Enabled(s, e) && c < |s.callers| && Builds(s.callers[c].pc, c, backends, skipped, n)
    ensures c < |Step(s, e).callers|
    ensures Builds(Step(s, e).callers[c].pc, c, backends + (if e.SpawnOk? && e.c == c then [e.b] else []),
                   skipped + (if e == Skip(c) then 1 else 0), n)
  {
    assert backends + [] == backends;
  }

  lemma {:induction false} BuildsFrom(s: State, es: seq<Event>, t: State, c: nat,
                                      backends: seq<Backend>, skipped: nat, n: nat)
    requires Run(s, es, t) && c < |s.callers| && Builds(s.callers[c].pc, c, backends, skipped, n)
    ensures c < |t.callers|
    ensures Builds(t.callers[c].pc, c, backends + SpawnedFor(es, c), skipped + SkippedFor(es, c), n)
    decreases |es|
  {
    if es == [] {
      assert backends + [] == backends;
    } else {
      var e := es[0];
      var more := if e.SpawnOk? && e.c == c then [e.b] else [];
      BuildsStep(s, e, c, backends, skipped, n);
      BuildsFrom(Step(s, e), es[1..], t, c, backends + more, skipped + (if e == Skip(c) then 1 else 0), n);
      assert backends + (more + SpawnedFor(es[1..], c)) == (backends + more) + SpawnedFor(es[1..], c);
    }
  }

  /** A call that has not claimed yet: it claims in this step, stays, or is answered
      with something it did not build. */
  lemma UnclaimedStep(s: State, e: Event, c: nat)
    requires Protocol(s) && OwnRuntimes(s) && Enabled(s, e) && c < |s.callers| && s.callers[c].pc.Unclaimed()
    ensures c < |Step(s, e).callers| && !(e.SpawnOk? && e.c == c) && e != Skip(c)
    ensures var pc := Step(s, e).callers[c].pc;
            || pc.Unclaimed()
            || (pc.Done? && (pc.res.Got? ==> pc.res.rt.builder != c))
            || (&& e.Lock? && e.c == c && Enter(s.h, s.callers[c].pid, |s.makers|).1.Claim?
                && Builds(pc, c, [], 0, e.bundle))
  {
    SameCallers(s, e);
  }

  lemma {:induction false} DoneStays(s: State, es: seq<Event>, t: State, c: nat)
    requires Run(s, es, t) && c < |s.callers| && s.callers[c].pc.Done?
    ensures c < |t.callers| && t.callers[c].pc == s.callers[c].pc
    decreases |es|
  {
    if es != [] {
      SameCallers(s, es[0]);
      DoneStep(s, es[0], c);
      DoneStays(Step(s, es[0]), es[1..], t, c);
    }
  }

  lemma DoneStep(s: State, e: Event, c: nat)
    requires Enabled(s, e) && c < |s.callers| && s.callers[c].pc.Done?
    ensures c < |Step(s, e).callers| && Step(s, e).callers[c].pc == s.callers[c].pc
  {
  }

  /** The builder's run: all names of the claimed bundle were spawned or skipped. */
  ghost predicate Whole(s: State, es: seq<Event>, rt: Runtime) {
    && rt.cleanups == SpawnedFor(es, rt.builder)
    && exists n: nat :: Claimed(s, es, rt.builder, n) && |rt.cleanups| + SkippedFor(es, rt.builder) == n
  }

  lemma {:induction false} BuilderIsWhole(s: State, es: seq<Event>, t: State, rt: Runtime)
    requires Protocol(s) && OwnRuntimes(s) && Run(s, es, t)
    requires rt.builder < |s.callers| == |t.callers| && s.callers[rt.builder].pc.Unclaimed()
    requires Answer(t.callers[rt.builder].pc) == Some(Got(rt))
    ensures Whole(s, es, rt)
    decreases |es|
  {
    var c := rt.builder;
    if es != [] {
      var e, u := es[0], Step(s, es[0]);
      UnclaimedStep(s, e, c);
      SameCallers(s, e);
      StepProtocol(s, e);
      OwnStep(s, e);
      if u.callers[c].pc.Unclaimed() {
        BuilderIsWhole(u, es[1..], t, rt);
        WholeLater(s, es, rt);
      } else if u.callers[c].pc.Done? {
        DoneStays(u, es[1..], t, c);
      } else {
        BuildsFrom(u, es[1..], t, c, [], 0, e.bundle);
        assert [] + SpawnedFor(es[1..], c) == SpawnedFor(es, c);
        assert Claimed(s, es, c, e.bundle);
      }
    }
  }

  lemma WholeLater(s: State, es: seq<Event>, rt: Runtime)
    requires es != [] && Enabled(s, es[0]) && Whole(Step(s, es[0]), es[1..], rt)
    requires !(es[0].SpawnOk? && es[0].c == rt.builder) && es[0] != Skip(rt.builder)
    ensures Whole(s, es, rt)
  {
    var c, rest := rt.builder, es[1..];
    var n: nat :| Claimed(Step(s, es[0]), rest, c, n) && |rt.cleanups| + SkippedFor(rest, c) == n;
    assert [] + SpawnedFor(rest, c) == SpawnedFor(rest, c);
    assert Claimed(s, es, c, n);
  }

  /** Over every run, the runtime of any call holds the cleanups of exactly the backends
      that were spawned for its builder, in order; and each name of the bundle the
      builder claimed was spawned or skipped. */
  lemma RuntimesAreWhole(s: State, es: seq<Event>, t: State, c: nat, rt: Runtime)
    requires Init(s) && Run(s, es, t) && c < |s.callers| && Took(s, es, c, rt)
    ensures Whole(s, es, rt)
  {
    AnswersExactly(s, es, t, c, rt);
    InitInv(s);
    CallersStay(s, es, t);
    BuilderIsWhole(s, es, t, rt);
  }

  lemma {:induction false} CallersStay(s: State, es: seq<Event>, t: State)
    requires Run(s, es, t)
    ensures |t.callers| == |s.callers|
    decreases |es|
  {
    if es != [] {
      SameCallers(s, es[0]);
      CallersStay(Step(s, es[0]), es[1..], t);
    }
  }

  // ----- errors have a cause -----

  /** The call has failed, or will. */
  predicate Doomed(pc: Pc) { pc.Failing? || Answer(pc) == Some(Err) }

  lemma DoomedStep(s: State, e: Event, c: nat)
    requires Protocol(s) && Enabled(s, e) && c < |s.callers| && !s.h.closed && e != Close
    ensures !Step(s, e).h.closed && c < |Step(s, e).callers|
    ensures Doomed(Step(s, e).callers[c].pc) <==> Doomed(s.callers[c].pc) || e == SpawnErr(c)
  {
    SameCallers(s, e);
    OpenStays(s, e);
    if (e.Lock? || e.CommitBuild?) && e.c == c {
      AnswerStep(s, e, c, Runtime(c, []));
      assert Step(s, e).callers[c].pc.Failing? ==> false;
    } else {
      OtherDoomed(s, e, c);
    }
  }

  lemma OpenStays(s: State, e: Event)
    requires Enabled(s, e) && !s.h.closed && e != Close
    ensures !Step(s, e).h.closed
  {
  }

  lemma OtherDoomed(s: State, e: Event, c: nat)
    requires Enabled(s, e) && c < |s.callers| && !((e.Lock? || e.CommitBuild?) && e.c == c)
    ensures Doomed(Step(s, e).callers[c].pc) <==> Doomed(s.callers[c].pc) || e == SpawnErr(c)
  {
  }

  lemma {:induction false} DoomedFrom(s: State, es: seq<Event>, t: State, c: nat)
    requires Protocol(s) && Run(s, es, t) && c < |s.callers| && !s.h.closed && Close !in es
    ensures c < |t.callers| && (Doomed(t.callers[c].pc) <==> Doomed(s.callers[c].pc) || SpawnErr(c) in es)
    decreases |es|
  {
    if es != [] {
      DoomedStep(s, es[0], c);
      StepProtocol(s, es[0]);
      DoomedFrom(Step(s, es[0]), es[1..], t, c);
      assert es == [es[0]] + es[1..];
    }
  }

  /** In every run without a Close, a call fails exactly when its own build failed:
      failures of other calls' builds, and Invalidates, never reach it. */
  lemma ErrorsHaveACause(s: State, es: seq<Event>, t: State, c: nat)
    requires Init(s) && Run(s, es, t) && c < |s.callers| && Close !in es
    ensures c < |t.callers| && (Doomed(t.callers[c].pc) <==> SpawnErr(c) in es)
  {
    InitInv(s);
    DoomedFrom(s, es, t, c);
  }

  // ----- and runtimes are delivered -----

  ghost predicate Healthy(s: State) {
    && !s.h.closed && OwnRuntimes(s)
    && forall c :: 0 <= c < |s.callers| ==> !Doomed(s.callers[c].pc)
  }

  predicate Peaceful(e: Event) { e != Close && !e.SpawnErr? }

  lemma HealthyStep(s: State, e: Event)
    requires Protocol(s) && Healthy(s) && Enabled(s, e) && Peaceful(e)
    ensures Healthy(Step(s, e))
  {
    SameCallers(s, e);
    OwnStep(s, e);
    OpenStays(s, e);
    forall c | 0 <= c < |s.callers| ensures !Doomed(Step(s, e).callers[c].pc) {
      DoomedStep(s, e, c);
    }
  }

  lemma HealthyReturned(s: State)
    requires Healthy(s) && AllReturned(s)
    ensures AllServed(s)
  {
    forall c | 0 <= c < |s.callers| ensures HasRuntime(s.callers[c].pc) {
      assert !Doomed(s.callers[c].pc);
    }
  }

  lemma {:induction false} TraceHealthy(run: nat -> State, ev: nat -> Event, i: nat)
    requires Trace(run, ev) && Init(run(0)) && forall k: nat :: Peaceful(ev(k))
    ensures Healthy(run(i))
  {
    if i == 0 {
      InitHealthy(run(0));
    } else {
      TraceHealthy(run, ev, i - 1);
      TraceInv(run, ev, i - 1);
      assert Peaceful(ev(i - 1));
      HealthyStep(run(i - 1), ev(i - 1));
    }
  }

  lemma InitHealthy(s: State)
    requires Init(s)
    ensures Healthy(s)
  {
  }

  /** In every fair interleaving without a Close and without a failing build, every
      call returns a runtime built for its profile, whatever Invalidates come between. */
  lemma EveryCallGetsARuntime(run: nat -> State, ev: nat -> Event) returns (n: nat)
    requires Trace(run, ev) && Init(run(0)) && Fair(run, ev) && forall k: nat :: Peaceful(ev(k))
    ensures AllServed(run(n))
  {
    n := ReturnsFrom(run, ev, 0);
    TraceHealthy(run, ev, n);
    HealthyReturned(run(n));
  }

  ghost predicate AllServed(s: State) {
    forall c :: 0 <= c < |s.callers| ==>
      var pc := s.callers[c].pc;
      pc.Done? && pc.res.Got? && BuiltFor(s, pc.res.rt, s.callers[c].pid)
  }
}
