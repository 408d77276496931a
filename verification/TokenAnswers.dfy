/** What EnsureFreshToken of internal/auth/oauthbroker.go answers: which token a call
    returns and why a call fails, over every run of TokenRefresh. */
module TokenAnswers {
  import opened Common
  import opened TokenRefresh

  function Answered(pc: Pc): Option<Answer> {
    if pc.Finishing? || pc.Returned? then Some(pc.ans) else None
  }

  /** The row a call has read and not yet judged, or found stale. */
  function HeldRow(pc: Pc): Option<Row> {
    if pc.Check? || pc.Recheck? || pc.Granting? then Some(pc.row) else None
  }

  /** The step in which call `c` comes by `tok` itself: a row it read is fresh at this
      clock reading, or the vendor grants it. */
  predicate Obtains(s: State, e: Event, c: nat, tok: Token)
    requires Enabled(s, e) && c < |s.calls|
  {
    || ((e == Test(c) || e == Retest(c)) &&
        s.now + 60_000_000_000 < s.calls[c].row.expiresAt * 1_000_000_000 && s.calls[c].row.access == tok)
    || e == Grant(c, tok)
  }

  /** The step in which call `c` is handed the answer of the flight led by `d`. */
  predicate Receives(s: State, e: Event, c: nat, d: nat)
    requires Enabled(s, e)
  {
    e == Deliver(c) && s.flights[s.calls[c].f].leader == d
  }

  ghost predicate Obtained(s: State, es: seq<Event>, c: nat, tok: Token)
    decreases |es|
  {
    && es != [] && Enabled(s, es[0]) && c < |s.calls|
    && (Obtains(s, es[0], c, tok) || Obtained(Step(s, es[0]), es[1..], c, tok))
  }

  ghost predicate Received(s: State, es: seq<Event>, c: nat, d: nat)
    decreases |es|
  {
    es != [] && Enabled(s, es[0]) && (Receives(s, es[0], c, d) || Received(Step(s, es[0]), es[1..], c, d))
  }

  /** The account row was `r` at some point of the run. */
  ghost predicate WasStored(s: State, es: seq<Event>, r: Row)
    decreases |es|
  {
    s.row == Some(r) || (es != [] && Enabled(s, es[0]) && WasStored(Step(s, es[0]), es[1..], r))
  }

  // ----- histories grow at the end -----

  lemma SameCalls(s: State, e: Event)
    requires Enabled(s, e)
    ensures |Step(s, e).calls| == |s.calls|
  {
  }

  lemma {:induction false} RunLength(s: State, es: seq<Event>, t: State)
    requires Run(s, es, t)
    ensures |t.calls| == |s.calls|
    decreases |es|
  {
    if es != [] {
      SameCalls(s, es[0]);
      RunLength(Step(s, es[0]), es[1..], t);
    }
  }

  lemma {:induction false} ObtainedGrows(s: State, es: seq<Event>, t: State, e: Event, c: nat, tok: Token)
    requires Run(s, es, t) && Enabled(t, e) && c < |s.calls| == |t.calls|
    ensures Obtained(s, es + [e], c, tok) <==> Obtained(s, es, c, tok) || Obtains(t, e, c, tok)
    decreases |es|
  {
    if es == [] {
      assert ([] + [e])[1..] == [];
    } else {
      assert (es + [e])[1..] == es[1..] + [e];
      SameCalls(s, es[0]);
      ObtainedGrows(Step(s, es[0]), es[1..], t, e, c, tok);
    }
  }

  lemma {:induction false} ReceivedGrows(s: State, es: seq<Event>, t: State, e: Event, c: nat, d: nat)
    requires Run(s, es, t) && Enabled(t, e)
    ensures Received(s, es + [e], c, d) <==> Received(s, es, c, d) || Receives(t, e, c, d)
    decreases |es|
  {
    if es == [] {
      assert ([] + [e])[1..] == [];
    } else {
      assert (es + [e])[1..] == es[1..] + [e];
      ReceivedGrows(Step(s, es[0]), es[1..], t, e, c, d);
    }
  }

  lemma {:induction false} StoredGrows(s: State, es: seq<Event>, t: State, e: Event, r: Row)
    requires Run(s, es, t) && Enabled(t, e)
    ensures WasStored(s, es + [e], r) <==> WasStored(s, es, r) || Step(t, e).row == Some(r)
    ensures t.row == Some(r) ==> WasStored(s, es, r)
    decreases |es|
  {
    if es == [] {
      assert ([] + [e])[1..] == [];
    } else {
      assert (es + [e])[1..] == es[1..] + [e];
      StoredGrows(Step(s, es[0]), es[1..], t, e, r);
    }
  }

  // ----- where tokens come from -----

  /** Call `c` came by `tok` itself, or was handed it by a leader who did. */
  ghost predicate Earned(s: State, es: seq<Event>, c: nat, tok: Token) {
    Obtained(s, es, c, tok) || exists d: nat :: Received(s, es, c, d) && Obtained(s, es, d, tok)
  }

  ghost predicate Earnings(s: State, es: seq<Event>, t: State) {
    && (forall c :: 0 <= c < |t.calls| && t.calls[c].Persist? ==> Obtained(s, es, c, t.calls[c].tok))
    && (forall c :: 0 <= c < |t.calls| && t.calls[c].Finishing? && t.calls[c].ans.Ok? ==>
          Obtained(s, es, c, t.calls[c].ans.tok))
    && (forall c :: 0 <= c < |t.calls| && t.calls[c].Returned? && t.calls[c].ans.Ok? ==>
          Earned(s, es, c, t.calls[c].ans.tok))
    && (forall f :: 0 <= f < |t.flights| && t.flights[f].result.Some? && t.flights[f].result.value.Ok? ==>
          Obtained(s, es, t.flights[f].leader, t.flights[f].result.value.tok))
  }

  /** How an answer after the step arises. */
  lemma AnswerArises(t: State, e: Event, c: nat)
    requires Enabled(t, e) && c < |t.calls|
    ensures var a, b := t.calls[c], Step(t, e).calls[c];
            && (b.Persist? ==> (a.Persist? && a.tok == b.tok) || e == Grant(c, b.tok))
            && (b.Finishing? && b.ans.Ok? ==>
                  a == b || Obtains(t, e, c, b.ans.tok) || (a.Persist? && a.tok == b.ans.tok))
            && (b.Returned? && b.ans.Ok? ==>
                  || a == b || Obtains(t, e, c, b.ans.tok) || (a.Finishing? && a.ans == b.ans)
                  || (e == Deliver(c) && t.flights[a.f].result == Some(b.ans)))
  {
  }

  lemma FlightArises(t: State, e: Event, f: nat)
    requires Enabled(t, e) && OneLeader(t) && f < |Step(t, e).flights|
    ensures var b := Step(t, e).flights[f];
            b.result.Some? && b.result.value.Ok? ==>
              || (f < |t.flights| && t.flights[f] == b)
              || (e.Finish? && b.leader == e.c && t.calls[e.c].ans == b.result.value)
  {
  }

  lemma EarnedStays(s: State, es: seq<Event>, t: State, e: Event, c: nat, tok: Token)
    requires Run(s, es, t) && Enabled(t, e) && c < |s.calls| == |t.calls| && Earned(s, es, c, tok)
    ensures Earned(s, es + [e], c, tok)
  {
    if Obtained(s, es, c, tok) {
      ObtainedGrows(s, es, t, e, c, tok);
    } else {
      var d: nat :| Received(s, es, c, d) && Obtained(s, es, d, tok);
      ReceivedGrows(s, es, t, e, c, d);
      ObtainedGrows(s, es, t, e, d, tok);
    }
  }

  lemma ReturnedEarned(s: State, es: seq<Event>, t: State, e: Event, c: nat)
    requires Run(s, es, t) && Enabled(t, e) && Earnings(s, es, t) && c < |s.calls| == |t.calls| && Answers(t)
    requires var b := Step(t, e).calls[c]; b.Returned? && b.ans.Ok?
    ensures Earned(s, es + [e], c, Step(t, e).calls[c].ans.tok)
  {
    var tok := Step(t, e).calls[c].ans.tok;
    AnswerArises(t, e, c);
    ObtainedGrows(s, es, t, e, c, tok);
    if t.calls[c] == Step(t, e).calls[c] {
      EarnedStays(s, es, t, e, c, tok);
    } else if e == Deliver(c) {
      var d := t.flights[t.calls[c].f].leader;
      ReceivedGrows(s, es, t, e, c, d);
      ObtainedGrows(s, es, t, e, d, tok);
    }
  }

  lemma EarningsStep(s: State, es: seq<Event>, t: State, e: Event)
    requires Run(s, es, t) && Enabled(t, e) && Inv(t) && |s.calls| == |t.calls| && Earnings(s, es, t)
    ensures Earnings(s, es + [e], Step(t, e))
  {
    var u := Step(t, e);
    SameCalls(t, e);
    forall c | 0 <= c < |u.calls| && u.calls[c].Persist? ensures Obtained(s, es + [e], c, u.calls[c].tok) {
      AnswerArises(t, e, c);
      ObtainedGrows(s, es, t, e, c, u.calls[c].tok);
    }
    forall c | 0 <= c < |u.calls| && u.calls[c].Finishing? && u.calls[c].ans.Ok?
      ensures Obtained(s, es + [e], c, u.calls[c].ans.tok)
    {
      AnswerArises(t, e, c);
      ObtainedGrows(s, es, t, e, c, u.calls[c].ans.tok);
    }
    forall c | 0 <= c < |u.calls| && u.calls[c].Returned? && u.calls[c].ans.Ok?
      ensures Earned(s, es + [e], c, u.calls[c].ans.tok)
    {
      ReturnedEarned(s, es, t, e, c);
    }
    forall f | 0 <= f < |u.flights| && u.flights[f].result.Some? && u.flights[f].result.value.Ok?
      ensures Obtained(s, es + [e], u.flights[f].leader, u.flights[f].result.value.tok)
    {
      FlightArises(t, e, f);
      ObtainedGrows(s, es, t, e, u.flights[f].leader, u.flights[f].result.value.tok);
    }
  }

  lemma {:induction false} EarningsRun(s: State, es: seq<Event>, t: State)
    requires Init(s) && Run(s, es, t)
    ensures Earnings(s, es, t)
    decreases |es|
  {
    if es != [] {
      var n := |es| - 1;
      var u := RunSplit(s, es, t);
      EarningsRun(s, es[..n], u);
      RunLength(s, es[..n], u);
      Reachable(s, es[..n], u);
      EarningsStep(s, es[..n], u, es[n]);
      assert es[..n] + [es[n]] == es;
    }
  }

  /** Over every run, a token answered by a call was fresh in a row that the call had
      read, at the clock reading that let it through, or was granted to the call; or
      a leader whose flight the call waited for came by it so. */
  lemma AnswersAreEarned(s: State, es: seq<Event>, t: State, c: nat, tok: Token)
    requires Init(s) && Run(s, es, t) && c < |t.calls| && Answered(t.calls[c]) == Some(Ok(tok))
    ensures Earned(s, es, c, tok)
  {
    EarningsRun(s, es, t);
  }

  // ----- and what was obtained is answered -----

  /** Call `c` has `tok` and has not lost it. */
  predicate Has(pc: Pc, tok: Token) { (pc.Persist? && pc.tok == tok) || Answered(pc) == Some(Ok(tok)) }

  lemma HasStep(s: State, e: Event, c: nat, tok: Token)
    requires Enabled(s, e) && c < |s.calls| && e != Abort(c) && (Has(s.calls[c], tok) || Obtains(s, e, c, tok))
    ensures c < |Step(s, e).calls| && Has(Step(s, e).calls[c], tok)
  {
  }

  lemma {:induction false} HasFrom(s: State, es: seq<Event>, t: State, c: nat, tok: Token)
    requires Run(s, es, t) && c < |s.calls| && Abort(c) !in es && (Has(s.calls[c], tok) || Obtained(s, es, c, tok))
    ensures c < |t.calls| && Has(t.calls[c], tok)
    decreases |es|
  {
    if es != [] {
      SameCalls(s, es[0]);
      if Has(s.calls[c], tok) || Obtains(s, es[0], c, tok) {
        assert es[0] in es;
        HasStep(s, es[0], c, tok);
      }
      HasFrom(Step(s, es[0]), es[1..], t, c, tok);
    }
  }

  /** A call that came by a token, and suffers no error, answers that token: the one
      it was just granted in particular, whatever the row says by then. */
  lemma ObtainedIsAnswered(s: State, es: seq<Event>, t: State, c: nat, tok: Token)
    requires Run(s, es, t) && c < |s.calls| && Obtained(s, es, c, tok) && Abort(c) !in es
    ensures c < |t.calls| && Has(t.calls[c], tok)
  {
    HasFrom(s, es, t, c, tok);
  }

  // ----- the rows judged -----

  lemma HeldArises(t: State, e: Event, c: nat)
    requires Enabled(t, e) && c < |t.calls|
    ensures var b := HeldRow(Step(t, e).calls[c]); b.Some? ==> b == HeldRow(t.calls[c]) || b == t.row
  {
  }

  /** A row that a call judges was the stored row at some point of the run. */
  lemma {:induction false} HeldRowsWereStored(s: State, es: seq<Event>, t: State, c: nat)
    requires Init(s) && Run(s, es, t) && c < |t.calls| && HeldRow(t.calls[c]).Some?
    ensures WasStored(s, es, HeldRow(t.calls[c]).value)
    decreases |es|
  {
    if es != [] {
      var n, r := |es| - 1, HeldRow(t.calls[c]).value;
      var u := RunSplit(s, es, t);
      SameCalls(u, es[n]);
      HeldArises(u, es[n], c);
      StoredGrows(s, es[..n], u, es[n], r);
      assert es[..n] + [es[n]] == es;
      if HeldRow(u.calls[c]) == Some(r) {
        HeldRowsWereStored(s, es[..n], u, c);
      }
    }
  }

  // ----- failures have a cause -----

  /** No failed call, no failed flight, and an account to read. */
  ghost predicate Untroubled(s: State) {
    && s.row.Some?
    && (forall c :: 0 <= c < |s.calls| ==> Answered(s.calls[c]) != Some(Fail))
    && (forall f :: 0 <= f < |s.flights| ==> s.flights[f].result != Some(Fail))
  }

  lemma UntroubledStep(s: State, e: Event)
    requires Untroubled(s) && Enabled(s, e) && !e.Abort? && !e.Disconnect?
    ensures Untroubled(Step(s, e))
  {
  }

  /** Without a failing store, vault, configuration or vendor call, and without a
      disconnect, no call of a connected user fails. */
  lemma {:induction false} NoFailureWithoutCause(s: State, es: seq<Event>, t: State)
    requires Untroubled(s) && Run(s, es, t) && forall e <- es :: !e.Abort? && !e.Disconnect?
    ensures Untroubled(t)
    decreases |es|
  {
    if es != [] {
      assert es[0] in es;
      UntroubledStep(s, es[0]);
      NoFailureWithoutCause(Step(s, es[0]), es[1..], t);
    }
  }

  /** A user who is not connected costs no flight and no grant: every call fails at once. */
  lemma {:induction false} NotConnectedFails(s: State, es: seq<Event>, t: State)
    requires Run(s, es, t) && Unconnected(s) && forall e <- es :: !e.Callback?
    ensures Unconnected(t)
    decreases |es|
  {
    if es != [] {
      assert es[0] in es;
      NotConnectedFails(Step(s, es[0]), es[1..], t);
    }
  }

  ghost predicate Unconnected(s: State) {
    && s.row.None? && s.flights == [] && s.current.None? && s.grants == 0
    && forall c :: 0 <= c < |s.calls| ==> s.calls[c].Begin? || s.calls[c] == Returned(Fail)
  }

  lemma StartsUntroubled(s: State)
    requires Init(s) && s.row.Some?
    ensures Untroubled(s)
  {
  }
}
