/** The bounded audit queue of internal/gateway/audit_resolver.go: Resolve calls
    hand records to one writer goroutine without ever blocking, and Close
    flushes. Each event is one mutex section, one channel operation, or one
    store write. */
module AuditQueue {
  import opened Common

  const CAPACITY: nat := 256

  datatype Rec = Rec(server: string, tenant: string, host: string, decision: string, detail: string)

  /** The first Close call; later ones return at the flag test. */
  datatype Closer = NotCalled | Flagged | ChannelClosed | Returned

  /** `resolved` lists the records of Resolve calls in the order they passed the lock. */
  datatype State = State(queue: seq<Rec>, closed: bool, channelClosed: bool, dropped: nat,
                         held: Option<Rec>, writerDone: bool, closer: Closer,
                         persisted: seq<Rec>, resolved: seq<Rec>)

  datatype Event =
    | Resolve(rec: Rec)
    | Take                 // the writer receives
    | Append(ok: bool)     // AppendAudit returns
    | Exit                 // the writer sees the closed, drained channel
    | CloseFlag
    | CloseAgain
    | CloseChannel
    | CloseReturn

  predicate Enabled(s: State, e: Event) {
    match e
    case Resolve(_) => true
    case Take => s.held.None? && s.queue != [] && !s.writerDone
    case Append(_) => s.held.Some?
    case Exit => s.held.None? && s.queue == [] && s.channelClosed && !s.writerDone
    case CloseFlag => !s.closed
    case CloseAgain => s.closed
    case CloseChannel => s.closer == Flagged
    case CloseReturn => s.closer == ChannelClosed && s.writerDone
  }

  function Record(s: State, rec: Rec): State {
    var t := s.(resolved := s.resolved + [rec]);
    if !s.closed && |s.queue| < CAPACITY then t.(queue := s.queue + [rec]) else t.(dropped := s.dropped + 1)
  }

  function Step(s: State, e: Event): State
    requires Enabled(s, e)
  {
    match e
    case Resolve(rec) => Record(s, rec)
    case Take => s.(held := Some(s.queue[0]), queue := s.queue[1..])
    case Append(ok) =>
      if ok then s.(held := None, persisted := s.persisted + [s.held.value])
      else s.(held := None, dropped := s.dropped + 1)
    case Exit => s.(writerDone := true)
    case CloseFlag => s.(closed := true, closer := Flagged)
    case CloseAgain => s
    case CloseChannel => s.(channelClosed := true, closer := ChannelClosed)
    case CloseReturn => s.(closer := Returned)
  }

  const INIT := State([], false, false, 0, None, false, NotCalled, [], [])

  ghost predicate Run(s: State, es: seq<Event>, t: State)
    decreases |es|
  {
    if es == [] then s == t else Enabled(s, es[0]) && Run(Step(s, es[0]), es[1..], t)
  }

  // ----- subsequences -----

  ghost predicate Subseq<T>(a: seq<T>, b: seq<T>)
    decreases |b|
  {
    if a == [] then true
    else if b == [] then false
    else (a[0] == b[0] && Subseq(a[1..], b[1..])) || Subseq(a, b[1..])
  }

  lemma {:induction false} SubseqAppend<T>(a: seq<T>, b: seq<T>, x: T)
    requires Subseq(a, b)
    ensures Subseq(a, b + [x]) && Subseq(a + [x], b + [x])
    decreases |b|
  {
    if b == [] {
      assert a + [x] == b + [x] == [x];
    } else {
      assert (b + [x])[1..] == b[1..] + [x];
      if a == [] {
        SubseqAppend(a, b[1..], x);
      } else {
        assert (a + [x])[1..] == a[1..] + [x];
        if a[0] == b[0] && Subseq(a[1..], b[1..]) {
          SubseqAppend(a[1..], b[1..], x);
        } else {
          SubseqAppend(a, b[1..], x);
        }
      }
    }
  }

  /** Leaving out the element at `i` keeps a subsequence. */
  lemma {:induction false} SubseqOmit<T>(a: seq<T>, b: seq<T>, i: nat)
    requires Subseq(a, b) && i < |a|
    ensures Subseq(a[..i] + a[i + 1..], b)
    decreases |b|
  {
    var c := a[..i] + a[i + 1..];
    if a[0] == b[0] && Subseq(a[1..], b[1..]) {
      if i == 0 {
        assert c == a[1..];
        SubseqWeaken(a[1..], b);
      } else {
        assert c[0] == a[0] && c[1..] == a[1..][..i - 1] + a[1..][i..];
        SubseqOmit(a[1..], b[1..], i - 1);
      }
    } else {
      SubseqOmit(a, b[1..], i);
      SubseqWeaken(c, b);
    }
  }

  lemma SubseqWeaken<T>(a: seq<T>, b: seq<T>)
    requires b != [] && Subseq(a, b[1..])
    ensures Subseq(a, b)
  {
  }

  // ----- invariants -----

  /** The records still on their way, oldest first. */
  function InFlight(s: State): seq<Rec> {
    (if s.held.Some? then [s.held.value] else []) + s.queue
  }

  ghost predicate Shutdown(s: State) {
    && |s.queue| <= CAPACITY
    && (s.closed <==> s.closer != NotCalled)
    && (s.channelClosed <==> s.closer == ChannelClosed || s.closer == Returned)
    && (s.writerDone ==> s.channelClosed && s.queue == [] && s.held.None?)
    && (s.closer == Returned ==> s.writerDone)
  }

  ghost predicate Accounted(s: State) {
    && |s.resolved| == |s.persisted| + s.dropped + |InFlight(s)|
    && Subseq(s.persisted + InFlight(s), s.resolved)
  }

  ghost predicate Inv(s: State) { Shutdown(s) && Accounted(s) }

  lemma RecordAccounted(s: State, rec: Rec)
    requires Inv(s)
    ensures Accounted(Record(s, rec))
  {
    SubseqAppend(s.persisted + InFlight(s), s.resolved, rec);
    assert s.persisted + (InFlight(s) + [rec]) == s.persisted + InFlight(s) + [rec];
    if !s.closed && |s.queue| < CAPACITY {
      assert InFlight(Record(s, rec)) == InFlight(s) + [rec];
    }
  }

  lemma AppendAccounted(s: State, ok: bool)
    requires Inv(s) && s.held.Some?
    ensures Accounted(Step(s, Append(ok)))
  {
    var x, q, n := s.held.value, s.persisted + InFlight(s), |s.persisted|;
    assert q == s.persisted + [x] + s.queue;
    assert InFlight(Step(s, Append(ok))) == s.queue;
    if !ok {
      SubseqOmit(q, s.resolved, n);
      assert q[..n] + q[n + 1..] == s.persisted + s.queue;
    }
  }

  lemma StepInv(s: State, e: Event)
    requires Inv(s) && Enabled(s, e)
    ensures Inv(Step(s, e))
  {
    match e
    case Resolve(rec) => RecordAccounted(s, rec);
    case Take => assert InFlight(Step(s, e)) == InFlight(s);
    case Append(ok) => AppendAccounted(s, ok);
    case _ => assert InFlight(Step(s, e)) == InFlight(s);
  }

  lemma {:induction false} RunInv(s: State, es: seq<Event>, t: State)
    requires Inv(s) && Run(s, es, t)
    ensures Inv(t)
    decreases |es|
  {
    if es != [] {
      StepInv(s, es[0]);
      RunInv(Step(s, es[0]), es[1..], t);
    }
  }

  // ----- what every run guarantees -----

  /** No record is lost silently: every Resolve is persisted, dropped and
      counted, queued, or in the writer's hands; the buffer stays within its
      capacity; and rows are persisted in the order of the Resolve calls. */
  lemma EveryRecordIsAccounted(es: seq<Event>, t: State)
    requires Run(INIT, es, t)
    ensures |t.resolved| == |t.persisted| + t.dropped + |t.queue| + (if t.held.Some? then 1 else 0)
    ensures |t.queue| <= CAPACITY
    ensures Subseq(t.persisted, t.resolved)
  {
    RunInv(INIT, es, t);
    SubseqPrefix(t.persisted, InFlight(t), t.resolved);
  }

  lemma {:induction false} SubseqPrefix<T>(a: seq<T>, c: seq<T>, b: seq<T>)
    requires Subseq(a + c, b)
    ensures Subseq(a, b)
    decreases |c|
  {
    if c == [] {
      assert a + c == a;
    } else {
      SubseqOmit(a + c, b, |a|);
      assert (a + c)[..|a|] + (a + c)[|a| + 1..] == a + c[1..];
      SubseqPrefix(a, c[1..], b);
    }
  }

  /** No send on a closed channel, and the channel is closed at most once. */
  lemma ChannelDiscipline(es: seq<Event>, t: State)
    requires Run(INIT, es, t)
    ensures forall rec :: Record(t, rec).queue != t.queue ==> !t.channelClosed
    ensures Enabled(t, CloseChannel) ==> !t.channelClosed
  {
    RunInv(INIT, es, t);
  }

  /** Once the first Close has returned nothing is queued or held, now or later,
      and from then on every Resolve only adds to the drop count. */
  lemma {:induction false} FlushedAfterClose(es: seq<Event>, t: State, fs: seq<Event>, u: State)
    requires Run(INIT, es, t) && t.closer == Returned && Run(t, fs, u)
    ensures u.queue == [] && u.held.None? && u.persisted == t.persisted
    ensures |u.resolved| == |u.persisted| + u.dropped
    decreases |fs|
  {
    RunInv(INIT, es, t);
    if fs != [] {
      RunConcat(INIT, es, t, fs[0]);
      FlushedAfterClose(es + [fs[0]], Step(t, fs[0]), fs[1..], u);
    }
  }

  lemma {:induction false} RunConcat(s: State, es: seq<Event>, t: State, e: Event)
    requires Run(s, es, t) && Enabled(t, e)
    ensures Run(s, es + [e], Step(t, e))
    decreases |es|
  {
    if es == [] {
      assert Run(Step(t, e), [], Step(t, e));
      assert ([] + [e])[1..] == [];
    } else {
      assert (es + [e])[1..] == es[1..] + [e];
      RunConcat(Step(s, es[0]), es[1..], t, e);
    }
  }

  // ----- exactly which records are kept -----

  /** A Resolve whose record is turned away: the flag is set or 256 records wait. */
  predicate Refused(s: State, e: Event) { e.Resolve? && (s.closed || |s.queue| >= 256) }

  /** How many records a run turned away. */
  function Refusals(s: State, es: seq<Event>): nat
    decreases |es|
  {
    if es == [] || !Enabled(s, es[0]) then 0
    else (if Refused(s, es[0]) then 1 else 0) + Refusals(Step(s, es[0]), es[1..])
  }

  /** The records it let in, in order. */
  function Accepted(s: State, es: seq<Event>): seq<Rec>
    decreases |es|
  {
    if es == [] || !Enabled(s, es[0]) then []
    else (if es[0].Resolve? && !Refused(s, es[0]) then [es[0].rec] else []) + Accepted(Step(s, es[0]), es[1..])
  }

  /** The outcomes of the store writes, in order. */
  function Outcomes(es: seq<Event>): seq<bool> {
    if es == [] then []
    else
      var n := |es| - 1;
      Outcomes(es[..n]) + if es[n].Append? then [es[n].ok] else []
  }

  function Failures(stored: seq<bool>): nat {
    if stored == [] then 0
    else
      var n := |stored| - 1;
      Failures(stored[..n]) + if stored[n] then 0 else 1
  }

  lemma {:induction false} RunSplit(s: State, es: seq<Event>, t: State) returns (u: State)
    requires Run(s, es, t) && es != []
    ensures Run(s, es[..|es| - 1], u) && Enabled(u, es[|es| - 1]) && Step(u, es[|es| - 1]) == t
    decreases |es|
  {
    if |es| == 1 {
      u := s;
    } else {
      u := RunSplit(Step(s, es[0]), es[1..], t);
      assert es[..|es| - 1][1..] == es[1..][..|es| - 2];
    }
  }

  lemma {:induction false} HistoryGrows(s: State, es: seq<Event>, t: State, e: Event)
    requires Run(s, es, t) && Enabled(t, e)
    ensures Accepted(s, es + [e]) == Accepted(s, es) + if e.Resolve? && !Refused(t, e) then [e.rec] else []
    ensures Refusals(s, es + [e]) == Refusals(s, es) + if Refused(t, e) then 1 else 0
    decreases |es|
  {
    if es == [] {
      assert ([] + [e])[1..] == [];
    } else {
      assert (es + [e])[1..] == es[1..] + [e];
      HistoryGrows(Step(s, es[0]), es[1..], t, e);
    }
  }

  /** The rows are the records let in whose write succeeded, in order, the rest of them
      is in flight, and the drop count is the records turned away plus the failed writes. */
  ghost predicate Tally(t: State, all: seq<Rec>, bs: seq<bool>, refusals: nat) {
    && |bs| <= |all| && t.persisted == Kept(all[..|bs|], bs) && InFlight(t) == all[|bs|..]
    && t.dropped == refusals + Failures(bs)
  }

  lemma TallyAppend(t: State, ok: bool, all: seq<Rec>, bs: seq<bool>, refusals: nat)
    requires Tally(t, all, bs, refusals) && t.held.Some?
    ensures Tally(Step(t, Append(ok)), all, bs + [ok], refusals)
  {
    var k := |bs|;
    assert all[k..][0] == t.held.value && all[k + 1..] == all[k..][1..];
    assert InFlight(t)[1..] == t.queue;
    assert all[..k + 1][..k] == all[..k] && (bs + [ok])[..k] == bs;
  }

  lemma TallyOther(t: State, e: Event, all: seq<Rec>, bs: seq<bool>, refusals: nat)
    requires Tally(t, all, bs, refusals) && Enabled(t, e) && !e.Append? && !e.Resolve?
    ensures Tally(Step(t, e), all, bs, refusals)
  {
    assert InFlight(Step(t, e)) == InFlight(t);
  }

  lemma TallyResolve(t: State, rec: Rec, all: seq<Rec>, bs: seq<bool>, refusals: nat)
    requires Tally(t, all, bs, refusals)
    ensures if Refused(t, Resolve(rec)) then Tally(Record(t, rec), all, bs, refusals + 1)
            else Tally(Record(t, rec), all + [rec], bs, refusals)
  {
    var k := |bs|;
    if Refused(t, Resolve(rec)) {
      assert InFlight(Record(t, rec)) == InFlight(t);
    } else {
      assert InFlight(Record(t, rec)) == InFlight(t) + [rec];
      assert (all + [rec])[..k] == all[..k] && (all + [rec])[k..] == all[k..] + [rec];
    }
  }

  /** Over every run, the tally of its events: a record is turned away only after Close
      or with 256 waiting, and is lost otherwise only by a failed write. */
  lemma {:induction false} QueueIsExact(es: seq<Event>, t: State)
    requires Run(INIT, es, t)
    ensures Tally(t, Accepted(INIT, es), Outcomes(es), Refusals(INIT, es))
    decreases |es|
  {
    if es != [] {
      var n := |es| - 1;
      var u := RunSplit(INIT, es, t);
      var e, all, bs, refusals := es[n], Accepted(INIT, es[..n]), Outcomes(es[..n]), Refusals(INIT, es[..n]);
      QueueIsExact(es[..n], u);
      HistoryGrows(INIT, es[..n], u, e);
      assert es[..n] + [e] == es;
      assert all + [] == all && bs + [] == bs;
      if e.Append? {
        TallyAppend(u, e.ok, all, bs, refusals);
        assert Outcomes(es) == bs + [e.ok] && Accepted(INIT, es) == all;
      } else if e.Resolve? {
        TallyResolve(u, e.rec, all, bs, refusals);
        assert Outcomes(es) == bs;
      } else {
        TallyOther(u, e, all, bs, refusals);
        assert Outcomes(es) == bs && Accepted(INIT, es) == all;
      }
    }
  }

  /** No Close, no failed write, and never 256 records waiting when one arrives. */
  predicate Smooth(s: State, es: seq<Event>)
    decreases |es|
  {
    es == [] ||
    (&& Enabled(s, es[0]) && es[0] != CloseFlag && es[0] != Append(false)
     && (es[0].Resolve? ==> |s.queue| < 256)
     && Smooth(Step(s, es[0]), es[1..]))
  }

  lemma {:induction false} SmoothFrom(s: State, es: seq<Event>, t: State)
    requires Run(s, es, t) && Smooth(s, es) && !s.closed
    ensures Refusals(s, es) == 0 && Append(false) !in es && t.resolved == s.resolved + Accepted(s, es)
    decreases |es|
  {
    if es == [] {
      assert s.resolved + [] == s.resolved;
    } else {
      var u := Step(s, es[0]);
      SmoothFrom(u, es[1..], t);
      SmoothResolved(s, es[0], Accepted(u, es[1..]));
      assert es == [es[0]] + es[1..];
    }
  }

  lemma SmoothResolved(s: State, e: Event, rest: seq<Rec>)
    requires Enabled(s, e)
    ensures Step(s, e).resolved + rest == s.resolved + ((if e.Resolve? then [e.rec] else []) + rest)
  {
  }

  lemma {:induction false} NoFailures(es: seq<Event>)
    requires Append(false) !in es
    ensures Failures(Outcomes(es)) == 0
    decreases |es|
  {
    if es != [] {
      var n := |es| - 1;
      NoFailures(es[..n]);
      assert es[n] in es;
      if es[n].Append? {
        assert Outcomes(es)[..|Outcomes(es)| - 1] == Outcomes(es[..n]);
      } else {
        assert Outcomes(es[..n]) + [] == Outcomes(es[..n]);
      }
    }
  }

  lemma {:induction false} NoFailureKeepsAll(q: seq<Rec>, stored: seq<bool>)
    requires |q| == |stored| && Failures(stored) == 0
    ensures Kept(q, stored) == q
    decreases |q|
  {
    if q != [] {
      var n := |q| - 1;
      NoFailureKeepsAll(q[..n], stored[..n]);
      assert q[..n] + [q[n]] == q;
    }
  }

  /** Then nothing is dropped: every record is stored or on its way, in order. */
  lemma SmoothRunsLoseNothing(es: seq<Event>, t: State)
    requires Run(INIT, es, t) && Smooth(INIT, es)
    ensures t.dropped == 0 && t.persisted + InFlight(t) == t.resolved
  {
    QueueIsExact(es, t);
    SmoothFrom(INIT, es, t);
    NoFailures(es);
    assert INIT.resolved + Accepted(INIT, es) == Accepted(INIT, es);
    NothingLost(t, Accepted(INIT, es), Outcomes(es));
  }

  lemma NothingLost(t: State, all: seq<Rec>, bs: seq<bool>)
    requires Tally(t, all, bs, 0) && Failures(bs) == 0
    ensures t.dropped == 0 && t.persisted + InFlight(t) == all
  {
    NoFailureKeepsAll(all[..|bs|], bs);
    assert all[..|bs|] + all[|bs|..] == all;
  }

  // ----- the object -----

  /** What the writer does to the records still queued. */
  function Drain(stored: seq<bool>): seq<Event> {
    if stored == [] then [] else Drain(stored[..|stored| - 1]) + [Take] + [Append(stored[|stored| - 1])]
  }

  /** Each method is one event of the machine; `closer` and `resolved` only record
      what the machine states. */
  class AuditingResolver {
    var ch: seq<Rec>
    var chClosed: bool
    var closed: bool
    var dropped: nat
    var held: Option<Rec>    // the writer's loop variable
    var done: bool
    var rows: seq<Rec>       // what AppendAudit has stored
    ghost var closer: Closer
    ghost var resolved: seq<Rec>

    ghost function View(): State
      reads this
    {
      State(ch, closed, chClosed, dropped, held, done, closer, rows, resolved)
    }

    constructor ()
      ensures View() == INIT
    {
      ch, chClosed, closed, dropped, held, done, rows := [], false, false, 0, None, false, [];
      closer, resolved := NotCalled, [];
    }

    method ResolveSection(rec: Rec)
      modifies this
      ensures View() == Step(old(View()), Resolve(rec))
    {
      if !closed {
        if |ch| < CAPACITY {
          ch := ch + [rec];
        } else {
          dropped := dropped + 1;
        }
      } else {
        dropped := dropped + 1;
      }
      resolved := resolved + [rec];
    }

    /** The locked part of Close: false when an earlier call got there first. */
    method CloseSection() returns (first: bool)
      modifies this
      ensures first == !old(closed)
      ensures View() == Step(old(View()), if first then CloseFlag else CloseAgain)
    {
      first := !closed;
      if first {
        closed := true;
        closer := Flagged;
      }
    }

    method CloseChannelOp()
      requires Enabled(View(), CloseChannel)
      modifies this
      ensures View() == Step(old(View()), CloseChannel)
    {
      chClosed := true;
      closer := ChannelClosed;
    }

    method Receive() returns (rec: Rec)
      requires Enabled(View(), Take)
      modifies this
      ensures View() == Step(old(View()), Take) && held == Some(rec)
    {
      rec := ch[0];
      ch, held := ch[1..], Some(rec);
    }

    method AppendAudit(rec: Rec, ok: bool)
      requires held == Some(rec)
      modifies this
      ensures View() == Step(old(View()), Append(ok))
    {
      if ok {
        rows := rows + [rec];
      } else {
        dropped := dropped + 1;
      }
      held := None;
    }

    /** The writer's loop once the channel is closed: `stored[i]` says whether the
        i-th AppendAudit succeeds. Every queued record ends up in exactly one of
        the rows or the drop count, in queue order, by steps of the machine. */
    method Writer(stored: seq<bool>)
      requires chClosed && held.None? && !done && |stored| == |ch|
      modifies this
      ensures Run(old(View()), Drain(stored) + [Exit], View())
      ensures ch == [] && held.None? && done
      ensures rows == old(rows) + Kept(old(ch), stored)
      ensures |rows| + dropped == |old(rows)| + old(dropped) + |old(ch)|
    {
      ghost var was, start := ch, View();
      var i := 0;
      while ch != []
        invariant 0 <= i <= |was| && ch == was[i..] && held.None? && !done && chClosed
        invariant Run(start, Drain(stored[..i]), View())
        invariant rows == old(rows) + Kept(was[..i], stored[..i])
        invariant |rows| + dropped + |ch| == |old(rows)| + old(dropped) + |was|
        decreases |ch|
      {
        ghost var v := View();
        var rec := Receive();
        RunConcat(start, Drain(stored[..i]), v, Take);
        ghost var u := View();
        AppendAudit(rec, stored[i]);
        RunConcat(start, Drain(stored[..i]) + [Take], u, Append(stored[i]));
        assert was[..i + 1][..i] == was[..i] && stored[..i + 1][..i] == stored[..i];
        i := i + 1;
      }
      assert was[..|was|] == was && stored[..|was|] == stored;
      RunConcat(start, Drain(stored), View(), Exit);
      done := true;
    }
  }

  /** What other goroutines do before the writer looks at the channel again. */
  datatype Pause = Pause(recs: seq<Rec>, close: bool)

  /** The writer's loop while Resolve and Close calls go on around it: whatever arrives
      between its receives, what happens is a run of the machine, and the loop ends
      only on a closed and drained channel. `stored(i)` says whether the i-th
      AppendAudit succeeds; an empty open channel makes the writer wait. */
  method Serve(a: AuditingResolver, pauses: seq<Pause>, stored: nat -> bool) returns (log: seq<Event>)
    requires Inv(a.View()) && a.held.None? && !a.done && !a.closed
    modifies a
    ensures Run(old(a.View()), log, a.View()) && Inv(a.View())
    ensures a.held.None?
    ensures a.done ==> a.chClosed && a.ch == []
  {
    log := [];
    ghost var start := a.View();
    var i := 0;
    while i < |pauses| && !a.done
      invariant 0 <= i <= |pauses| && a.held.None?
      invariant Run(start, log, a.View()) && Inv(a.View())
      invariant a.closed == a.chClosed
      invariant a.done ==> a.chClosed && a.ch == []
    {
      log := Arrive(a, pauses[i].recs, log, start);
      if pauses[i].close && !a.closed {
        log := CloseNow(a, log, start);
      }
      log := Round(a, stored(i), log, start);
      i := i + 1;
    }
  }

  lemma Extend(start: State, log: seq<Event>, v: State, e: Event)
    requires Run(start, log, v) && Inv(v) && Enabled(v, e)
    ensures Run(start, log + [e], Step(v, e)) && Inv(Step(v, e))
  {
    RunConcat(start, log, v, e);
    StepInv(v, e);
  }

  method Arrive(a: AuditingResolver, recs: seq<Rec>, log: seq<Event>, ghost start: State) returns (out: seq<Event>)
    requires Run(start, log, a.View()) && Inv(a.View())
    modifies a
    ensures Run(start, out, a.View()) && Inv(a.View())
    ensures a.held == old(a.held) && a.done == old(a.done) && a.closed == old(a.closed) && a.chClosed == old(a.chClosed)
    ensures out == log + Resolves(recs)
  {
    out := log;
    for i := 0 to |recs|
      invariant Run(start, out, a.View()) && Inv(a.View())
      invariant a.held == old(a.held) && a.done == old(a.done)
      invariant a.closed == old(a.closed) && a.chClosed == old(a.chClosed)
      invariant out == log + Resolves(recs[..i])
    {
      Extend(start, out, a.View(), Resolve(recs[i]));
      a.ResolveSection(recs[i]);
      ResolvesNext(recs, i);
      out := out + [Resolve(recs[i])];
    }
    assert recs[..|recs|] == recs;
  }

  function Resolves(recs: seq<Rec>): seq<Event> { seq(|recs|, i requires 0 <= i < |recs| => Resolve(recs[i])) }

  lemma ResolvesNext(recs: seq<Rec>, i: nat)
    requires i < |recs|
    ensures Resolves(recs[..i + 1]) == Resolves(recs[..i]) + [Resolve(recs[i])]
  {
  }

  method CloseNow(a: AuditingResolver, log: seq<Event>, ghost start: State) returns (out: seq<Event>)
    requires Run(start, log, a.View()) && Inv(a.View()) && !a.closed
    modifies a
    ensures Run(start, out, a.View()) && Inv(a.View()) && out == log + [CloseFlag] + [CloseChannel]
    ensures a.held == old(a.held) && a.done == old(a.done) && a.ch == old(a.ch) && a.closed && a.chClosed
  {
    Extend(start, log, a.View(), CloseFlag);
    var first := a.CloseSection();
    out := log + [CloseFlag];
    Extend(start, out, a.View(), CloseChannel);
    a.CloseChannelOp();
    out := out + [CloseChannel];
  }

  /** One turn of the loop: a record is received and stored, the loop ends, or it waits. */
  method Round(a: AuditingResolver, ok: bool, log: seq<Event>, ghost start: State) returns (out: seq<Event>)
    requires Run(start, log, a.View()) && Inv(a.View()) && a.held.None? && !a.done
    modifies a
    ensures Run(start, out, a.View()) && Inv(a.View()) && a.held.None?
    ensures a.closed == old(a.closed) && a.chClosed == old(a.chClosed)
    ensures a.done <==> old(a.chClosed && a.ch == [])
    ensures a.done ==> a.ch == []
    ensures out == log + if old(a.ch) != [] then [Take] + [Append(ok)] else if old(a.chClosed) then [Exit] else []
  {
    out := log;
    if a.ch != [] {
      Extend(start, out, a.View(), Take);
      var rec := a.Receive();
      out := out + [Take];
      Extend(start, out, a.View(), Append(ok));
      a.AppendAudit(rec, ok);
      out := out + [Append(ok)];
    } else if a.chClosed {
      Extend(start, out, a.View(), Exit);
      a.done := true;
      out := out + [Exit];
    }
  }

  function Kept(q: seq<Rec>, stored: seq<bool>): seq<Rec>
    requires |q| == |stored|
  {
    if q == [] then []
    else
      var n := |q| - 1;
      Kept(q[..n], stored[..n]) + if stored[n] then [q[n]] else []
  }
}
