/** Token refresh of internal/auth/oauthbroker.go (EnsureFreshToken and
    refreshAndPersist) over the row of internal/store/connaccounts.go, for one
    (user, vendor) key. The refresh is the grant of section 6 of RFC 6749.

    Any number of concurrent EnsureFreshToken calls interleave with OAuth
    callbacks, disconnects and the clock. Singleflight is a table from the key
    to the running flight; a finished flight keeps its answer for its waiters. */
module TokenRefresh {
  import opened Common

  const SECOND: int := 1_000_000_000     // nanoseconds
  const SKEW: int := 60 * SECOND         // refreshSkew

  /** An access token and the true instant, in nanoseconds, at which it expires. */
  datatype Token = Token(value: string, expiry: int)

  /** A connected_accounts row; `expiresAt` is in whole seconds. */
  datatype Row = Row(refresh: string, access: Token, expiresAt: int, scopes: seq<string>)

  /** time.Time.Unix() rounds towards minus infinity. */
  function Unix(ns: int): (s: int)
    ensures s * SECOND <= ns < (s + 1) * SECOND
  {
    ns / SECOND
  }

  predicate Fresh(r: Row, now: int) { now + SKEW < r.expiresAt * SECOND }

  // ----- the store -----

  function Put(refresh: string, access: Token, scopes: seq<string>): Row {
    Row(refresh, access, Unix(access.expiry), scopes)
  }

  function Rotate(r: Row, access: Token): Row {
    r.(access := access, expiresAt := Unix(access.expiry))
  }

  class Accounts {
    var rows: map<(int, string), Row>

    constructor ()
      ensures rows == map[]
    {
      rows := map[];
    }

    method PutConnectedAccount(user: int, vendor: string, refresh: string, access: Token, scopes: seq<string>)
      modifies this
      ensures rows == old(rows)[(user, vendor) := Put(refresh, access, scopes)]
    {
      rows := rows[(user, vendor) := Row(refresh, access, access.expiry / SECOND, scopes)];
    }

    /** Only the access token and its expiry of an existing row change. */
    method UpdateConnectedAccountTokens(user: int, vendor: string, access: Token) returns (found: bool)
      modifies this
      ensures found <==> (user, vendor) in old(rows)
      ensures rows.Keys == old(rows).Keys
      ensures found ==> rows == old(rows)[(user, vendor) := Rotate(old(rows)[(user, vendor)], access)]
      ensures !found ==> rows == old(rows)
    {
      found := (user, vendor) in rows;
      if found {
        var r := rows[(user, vendor)];
        rows := rows[(user, vendor) := Row(r.refresh, access, access.expiry / SECOND, r.scopes)];
      }
    }

    method GetConnectedAccount(user: int, vendor: string) returns (r: Option<Row>)
      ensures r == if (user, vendor) in rows then Some(rows[(user, vendor)]) else None
    {
      if (user, vendor) in rows {
        r := Some(rows[(user, vendor)]);
      } else {
        r := None;
      }
    }
  }

  // ----- the machine -----

  datatype Answer = Ok(tok: Token) | Fail

  datatype Pc =
    | Begin
    | Check(row: Row)                    // row read, clock not yet read
    | Joining                            // about to enter refreshGroup.Do
    | Waiting(f: nat)
    | Reload(f: nat)                     // leader, before the second read
    | Recheck(f: nat, row: Row)
    | Granting(f: nat, row: Row)
    | Persist(f: nat, tok: Token, spent: string)  // granted for the refresh token `spent`, not yet stored
    | Finishing(f: nat, ans: Answer)
    | Returned(ans: Answer)
  {
    predicate Leads(x: nat) { (Reload? || Recheck? || Granting? || Persist? || Finishing?) && this.f == x }

    predicate CanFail() { Begin? || Check? || Reload? || Recheck? || Granting? || Persist? }

    predicate Leading() { Reload? || Recheck? || Granting? || Persist? || Finishing? }
  }

  datatype Flight = Flight(leader: nat, result: Option<Answer>)

  /** `origin` is the refresh token under which the row's access token was issued. */
  datatype State = State(now: int, row: Option<Row>, origin: string, calls: seq<Pc>, flights: seq<Flight>,
                         current: Option<nat>, grants: nat)

  datatype Event =
    | Tick(now: int)
    | Callback(refresh: string, access: Token, scopes: seq<string>)
    | Disconnect
    | Read(c: nat)
    | Test(c: nat)
    | Join(c: nat)
    | Reread(c: nat)
    | Retest(c: nat)
    | Grant(c: nat, tok: Token)
    | Save(c: nat, stored: bool)
    | Abort(c: nat)                      // a store, vault, config or grant call failed
    | Finish(c: nat)
    | Deliver(c: nat)
  {
    predicate OfCall() { !Tick? && !Callback? && !Disconnect? }
  }

  predicate Enabled(s: State, e: Event) {
    match e
    case Tick(now) => s.now <= now
    case Callback(_, _, _) => true
    case Disconnect => true
    case Read(c) => c < |s.calls| && s.calls[c].Begin?
    case Test(c) => c < |s.calls| && s.calls[c].Check?
    case Join(c) => c < |s.calls| && s.calls[c].Joining?
    case Reread(c) => c < |s.calls| && s.calls[c].Reload?
    case Retest(c) => c < |s.calls| && s.calls[c].Recheck?
    case Grant(c, _) => c < |s.calls| && s.calls[c].Granting?
    case Save(c, _) => c < |s.calls| && s.calls[c].Persist?
    case Abort(c) => c < |s.calls| && s.calls[c].CanFail()
    case Finish(c) => c < |s.calls| && s.calls[c].Finishing? && s.calls[c].f < |s.flights|
    case Deliver(c) =>
      c < |s.calls| && s.calls[c].Waiting? && s.calls[c].f < |s.flights| && s.flights[s.calls[c].f].result.Some?
  }

  function Goto(s: State, c: nat, pc: Pc): State
    requires c < |s.calls|
  {
    s.(calls := s.calls[c := pc])
  }

  function Step(s: State, e: Event): State
    requires Enabled(s, e)
  {
    match e
    case Tick(now) => s.(now := now)
    case Callback(refresh, access, scopes) => s.(row := Some(Put(refresh, access, scopes)), origin := refresh)
    case Disconnect => s.(row := None)
    case Read(c) => Goto(s, c, if s.row.None? then Returned(Fail) else Check(s.row.value))
    case Test(c) =>
      var r := s.calls[c].row;
      Goto(s, c, if Fresh(r, s.now) then Returned(Ok(r.access)) else Joining)
    case Join(c) =>
      if s.current.Some? then Goto(s, c, Waiting(s.current.value))
      else Goto(s.(flights := s.flights + [Flight(c, None)], current := Some(|s.flights|)), c, Reload(|s.flights|))
    case Reread(c) =>
      var f := s.calls[c].f;
      Goto(s, c, if s.row.None? then Finishing(f, Fail) else Recheck(f, s.row.value))
    case Retest(c) =>
      var f, r := s.calls[c].f, s.calls[c].row;
      Goto(s, c, if Fresh(r, s.now) then Finishing(f, Ok(r.access)) else Granting(f, r))
    case Grant(c, tok) => Goto(s.(grants := s.grants + 1), c, Persist(s.calls[c].f, tok, s.calls[c].row.refresh))
    case Save(c, stored) =>
      var pc := s.calls[c];
      var t := if stored && s.row.Some? then s.(row := Some(Rotate(s.row.value, pc.tok)), origin := pc.spent) else s;
      Goto(t, c, Finishing(pc.f, Ok(pc.tok)))
    case Abort(c) =>
      Goto(s, c, if s.calls[c].Leading() then Finishing(s.calls[c].f, Fail) else Returned(Fail))
    case Finish(c) =>
      var f, ans := s.calls[c].f, s.calls[c].ans;
      Goto(s.(flights := s.flights[f := s.flights[f].(result := Some(ans))], current := None), c, Returned(ans))
    case Deliver(c) => Goto(s, c, Returned(s.flights[s.calls[c].f].result.value))
  }

  ghost predicate Init(s: State) {
    && s.flights == [] && s.current == None && s.grants == 0
    && (forall c :: 0 <= c < |s.calls| ==> s.calls[c].Begin?)
    && (s.row.Some? ==> s.row.value.expiresAt == Unix(s.row.value.access.expiry) && s.origin == s.row.value.refresh)
  }

  ghost predicate Run(s: State, es: seq<Event>, t: State)
    decreases |es|
  {
    if es == [] then s == t else Enabled(s, es[0]) && Run(Step(s, es[0]), es[1..], t)
  }

  // ----- singleflight -----

  /** At most one call leads at any time, and the table names its flight. */
  ghost predicate OneLeader(s: State) {
    && (s.current.Some? ==>
          && s.current.value < |s.flights| && s.flights[s.current.value].leader < |s.calls|
          && s.calls[s.flights[s.current.value].leader].Leads(s.current.value))
    && (forall c :: 0 <= c < |s.calls| && s.calls[c].Leading() ==>
          s.current == Some(s.calls[c].f) && s.calls[c].f < |s.flights| && s.flights[s.calls[c].f].leader == c)
  }

  /** A flight without an answer is the current one; an answer is its leader's. */
  ghost predicate Answers(s: State) {
    && (forall f :: 0 <= f < |s.flights| ==>
          && s.flights[f].leader < |s.calls|
          && (if s.flights[f].result.None? then s.current == Some(f)
              else s.calls[s.flights[f].leader] == Returned(s.flights[f].result.value)))
    && (forall c :: 0 <= c < |s.calls| && s.calls[c].Waiting? ==> s.calls[c].f < |s.flights|)
  }

  /** Stored expiries, and the rows calls hold, are the true expiry rounded down. */
  ghost predicate Floored(s: State) {
    && (s.row.Some? ==> s.row.value.expiresAt == Unix(s.row.value.access.expiry))
    && (forall c :: 0 <= c < |s.calls| && (s.calls[c].Check? || s.calls[c].Recheck? || s.calls[c].Granting?) ==>
          s.calls[c].row.expiresAt == Unix(s.calls[c].row.access.expiry))
  }

  ghost predicate Inv(s: State) { OneLeader(s) && Answers(s) && Floored(s) }

  /** A step of one call that neither starts nor ends a flight. */
  lemma LocalInv(s: State, t: State, c: nat)
    requires OneLeader(s) && Answers(s) && c < |s.calls| == |t.calls|
    requires t == s.(calls := t.calls, row := t.row, origin := t.origin, grants := t.grants) &&
             t.calls == s.calls[c := t.calls[c]]
    requires !s.calls[c].Returned? && (s.calls[c].Leading() <==> t.calls[c].Leading())
    requires s.calls[c].Leading() ==> s.calls[c].f == t.calls[c].f
    requires t.calls[c].Waiting? ==> t.calls[c].f < |s.flights|
    ensures OneLeader(t) && Answers(t)
  {
  }

  lemma JoinInv(s: State, c: nat)
    requires OneLeader(s) && Answers(s) && Enabled(s, Join(c))
    ensures OneLeader(Step(s, Join(c))) && Answers(Step(s, Join(c)))
  {
  }

  lemma FinishInv(s: State, c: nat)
    requires OneLeader(s) && Answers(s) && Enabled(s, Finish(c))
    ensures OneLeader(Step(s, Finish(c))) && Answers(Step(s, Finish(c)))
  {
  }

  lemma FlooredInv(s: State, e: Event)
    requires Floored(s) && Enabled(s, e)
    ensures Floored(Step(s, e))
  {
  }

  lemma StepInv(s: State, e: Event)
    requires Inv(s) && Enabled(s, e)
    ensures Inv(Step(s, e))
  {
    FlooredInv(s, e);
    if e.Join? {
      JoinInv(s, e.c);
    } else if e.Finish? {
      FinishInv(s, e.c);
    } else if e.OfCall() {
      CallInv(s, e);
    } else {
      OutsideInv(s, e);
    }
  }

  lemma CallInv(s: State, e: Event)
    requires OneLeader(s) && Answers(s) && Enabled(s, e) && e.OfCall() && !e.Join? && !e.Finish?
    ensures OneLeader(Step(s, e)) && Answers(Step(s, e))
  {
    LocalInv(s, Step(s, e), e.c);
  }

  lemma OutsideInv(s: State, e: Event)
    requires OneLeader(s) && Answers(s) && Enabled(s, e) && !e.OfCall()
    ensures OneLeader(Step(s, e)) && Answers(Step(s, e))
  {
  }

  lemma {:induction false} RunInv(s: State, es: seq<Event>, t: State)
    requires Inv(s) && Run(s, es, t)
    ensures Inv(t)
    decreases |es|
  {
    if es != [] {
      StepInv(s, es[0]);
      RunInv(Step(s, es[0]), es[1..], t);
    }
  }

  lemma Reachable(s: State, es: seq<Event>, t: State)
    requires Init(s) && Run(s, es, t)
    ensures Inv(t)
  {
    RunInv(s, es, t);
  }

  /** All waiters of a flight receive the answer its leader returned. */
  lemma WaitersShareTheAnswer(s: State, es: seq<Event>, t: State, c: nat)
    requires Init(s) && Run(s, es, t) && Enabled(t, Deliver(c))
    ensures var leader := t.flights[t.calls[c].f].leader;
            leader < |t.calls| && t.calls[leader].Returned? && Step(t, Deliver(c)).calls[c] == t.calls[leader]
  {
    Reachable(s, es, t);
  }

  // ----- one grant -----

  /** Fresh at every clock reading up to `horizon`. */
  predicate Lasting(r: Row, horizon: int) { horizon + SKEW < r.expiresAt * SECOND }

  /** The premise: the clock stays within the horizon, every granted token
      outlives it and is stored, and so does any token a callback stores. */
  predicate Calm(s: State, e: Event, horizon: int)
    requires Enabled(s, e)
  {
    match e
    case Tick(now) => now <= horizon
    case Callback(refresh, access, scopes) => Lasting(Put(refresh, access, scopes), horizon)
    case Grant(_, tok) => horizon + SKEW < Unix(tok.expiry) * SECOND
    case Save(_, stored) => stored
    case Abort(c) => !s.calls[c].Persist?
    case _ => true
  }

  ghost predicate CalmRun(s: State, es: seq<Event>, t: State, horizon: int)
    decreases |es|
  {
    if es == [] then s == t
    else Enabled(s, es[0]) && Calm(s, es[0], horizon) && CalmRun(Step(s, es[0]), es[1..], t, horizon)
  }

  /** After a grant, the row is replaced before any other call can lead, and
      every later second read finds a lasting row. */
  ghost predicate Spent(s: State, horizon: int) {
    && s.now <= horizon && s.grants <= 1
    && (forall c :: 0 <= c < |s.calls| && s.calls[c].Persist? ==>
          s.grants == 1 && horizon + SKEW < Unix(s.calls[c].tok.expiry) * SECOND)
    && (s.grants == 1 ==>
          && (forall c :: 0 <= c < |s.calls| ==>
                !s.calls[c].Granting? && (s.calls[c].Recheck? ==> Lasting(s.calls[c].row, horizon)))
          && (s.row.Some? ==> Lasting(s.row.value, horizon) || exists c :: 0 <= c < |s.calls| && s.calls[c].Persist?))
  }

  lemma SpentStep(s: State, e: Event, horizon: int)
    requires Inv(s) && Spent(s, horizon) && Enabled(s, e) && Calm(s, e, horizon)
    ensures Spent(Step(s, e), horizon)
  {
    if e.Grant? || e.Save? {
      SpentByLeader(s, e, horizon);
    } else {
      SpentByOther(s, e, horizon);
    }
  }

  lemma SpentByLeader(s: State, e: Event, horizon: int)
    requires Inv(s) && Spent(s, horizon) && Enabled(s, e) && Calm(s, e, horizon) && (e.Grant? || e.Save?)
    ensures Spent(Step(s, e), horizon)
  {
    var t := Step(s, e);
    if e.Grant? {
      assert t.calls[e.c].Persist?;
    }
  }

  lemma SpentByOther(s: State, e: Event, horizon: int)
    requires Inv(s) && Spent(s, horizon) && Enabled(s, e) && Calm(s, e, horizon) && !e.Grant? && !e.Save?
    ensures Spent(Step(s, e), horizon)
  {
    var t := Step(s, e);
    if exists d :: 0 <= d < |s.calls| && s.calls[d].Persist? {
      var d :| 0 <= d < |s.calls| && s.calls[d].Persist?;
      assert t.calls[d].Persist?;
    }
  }

  lemma {:induction false} SpentRun(s: State, es: seq<Event>, t: State, horizon: int)
    requires Inv(s) && Spent(s, horizon) && CalmRun(s, es, t, horizon)
    ensures Spent(t, horizon)
    decreases |es|
  {
    if es != [] {
      SpentStep(s, es[0], horizon);
      StepInv(s, es[0]);
      SpentRun(Step(s, es[0]), es[1..], t, horizon);
    }
  }

  /** In every interleaving of any number of calls, a granted token that is
      stored and stays fresh is the only one granted: calls that read the stale
      row before the refresh, and enter singleflight after it, find it. */
  lemma AtMostOneGrant(s: State, es: seq<Event>, t: State, horizon: int)
    requires Init(s) && s.now <= horizon && CalmRun(s, es, t, horizon)
    ensures t.grants <= 1
  {
    SpentRun(s, es, t, horizon);
  }

  /** The premise is needed: a call that meets no other asks for another grant
      exactly when the stored row is no longer fresh, whoever stored it. */
  lemma SoloCall(s: State, c: nat)
    requires s.row.Some? && s.current.None? && c < |s.calls| && s.calls[c].Begin?
    ensures var r := s.row.value;
            var s2 := Step(Step(s, Read(c)), Test(c));
            if Fresh(r, s.now) then s2 == Goto(s, c, Returned(Ok(r.access)))
            else Enabled(s2, Join(c)) && var s3 := Step(s2, Join(c));
                 Enabled(s3, Reread(c)) && var s4 := Step(s3, Reread(c));
                 Enabled(s4, Retest(c)) && Step(s4, Retest(c)).calls[c] == Granting(|s.flights|, r)
  {
    var s1 := Step(s, Read(c));
    assert s1.calls[c] == Check(s.row.value);
    assert s1.calls[c := Returned(Ok(s.row.value.access))] == s.calls[c := Returned(Ok(s.row.value.access))];
  }

  // ----- margins and invariance -----

  /** A token served from the row has more than 60 s, in nanoseconds, of true life
      left at the clock reading that let it through, on either of the two checks. */
  lemma CachedTokenHasMargin(s: State, es: seq<Event>, t: State, c: nat)
    requires Init(s) && Run(s, es, t) && (Enabled(t, Test(c)) || Enabled(t, Retest(c)))
    ensures Enabled(t, Test(c)) && Step(t, Test(c)).calls[c].Returned? ==>
              Step(t, Test(c)).calls[c].ans == Ok(t.calls[c].row.access)
    ensures Enabled(t, Retest(c)) && Step(t, Retest(c)).calls[c].Finishing? ==>
              Step(t, Retest(c)).calls[c].ans == Ok(t.calls[c].row.access)
    ensures || (Enabled(t, Test(c)) && Step(t, Test(c)).calls[c].Returned?)
            || (Enabled(t, Retest(c)) && Step(t, Retest(c)).calls[c].Finishing?) ==>
              t.calls[c].row.access.expiry > t.now + 60_000_000_000
  {
    Reachable(s, es, t);
  }

  /** The refresh token and scopes of the last callback in a run. */
  function LastConsent(init: Option<Row>, es: seq<Event>): Option<(string, seq<string>)> {
    if es == [] then (if init.Some? then Some((init.value.refresh, init.value.scopes)) else None)
    else
      var e := es[|es| - 1];
      match e
      case Callback(refresh, _, scopes) => Some((refresh, scopes))
      case Disconnect => None
      case _ => LastConsent(init, es[..|es| - 1])
  }

  /** Refreshes never touch the refresh token or the granted scopes: over any
      run the row carries those of the last callback, and is absent exactly
      when there is none since the last disconnect. */
  lemma {:induction false} ConsentIsTheLastCallbacks(s: State, es: seq<Event>, t: State)
    requires Run(s, es, t)
    ensures LastConsent(s.row, es) == if t.row.Some? then Some((t.row.value.refresh, t.row.value.scopes)) else None
    decreases |es|
  {
    if es != [] {
      var n := |es| - 1;
      var u := RunSplit(s, es, t);
      ConsentIsTheLastCallbacks(s, es[..n], u);
    }
  }

  // ----- whose access token is stored -----

  /** The stored access token was issued for the stored refresh token. */
  predicate Matched(s: State) { s.row.Some? ==> s.origin == s.row.value.refresh }

  /** Whether a step leaves the row matched: a write decides it, by the refresh
      token found in the row it updates; nothing else changes it. */
  predicate MatchedAfter(s: State, e: Event)
    requires Enabled(s, e)
  {
    match e
    case Callback(_, _, _) => true
    case Disconnect => true
    case Save(c, stored) => if stored && s.row.Some? then s.calls[c].spent == s.row.value.refresh else Matched(s)
    case _ => Matched(s)
  }

  lemma MatchedStep(s: State, e: Event)
    requires Enabled(s, e)
    ensures Matched(Step(s, e)) <==> MatchedAfter(s, e)
  {
  }

  /** Every stored grant finds in the row the refresh token it was made with: no
      callback for other consent has landed since the leader's second read. */
  ghost predicate Uncrossed(s: State, es: seq<Event>)
    decreases |es|
  {
    es != [] ==>
      && Enabled(s, es[0])
      && (es[0].Save? && es[0].stored && s.row.Some? ==> s.calls[es[0].c].spent == s.row.value.refresh)
      && Uncrossed(Step(s, es[0]), es[1..])
  }

  /** Over every uncrossed run the stored access token belongs to the stored consent. */
  lemma {:induction false} UncrossedMatches(s: State, es: seq<Event>, t: State)
    requires Matched(s) && Run(s, es, t) && Uncrossed(s, es)
    ensures Matched(t)
    decreases |es|
  {
    if es != [] {
      MatchedStep(s, es[0]);
      UncrossedMatches(Step(s, es[0]), es[1..], t);
    }
  }

  /** Over every run, crossed or not, the row is matched exactly when the last step
      that wrote or removed it left it so. */
  lemma LastWriteDecides(s: State, es: seq<Event>, t: State)
    requires Init(s) && Run(s, es, t)
    ensures Matched(t) <==> Carry(s, es, true)
  {
    LastWriteFrom(s, es, t, true);
  }

  /** `m` carried along the run and replaced at each write. */
  ghost predicate Carry(s: State, es: seq<Event>, m: bool)
    decreases |es|
  {
    if es == [] then m
    else
      Enabled(s, es[0]) &&
      Carry(Step(s, es[0]), es[1..], if Writes(s, es[0]) then MatchedAfter(s, es[0]) else m)
  }

  predicate Writes(s: State, e: Event) { e.Callback? || e.Disconnect? || (e.Save? && e.stored && s.row.Some?) }

  lemma {:induction false} LastWriteFrom(s: State, es: seq<Event>, t: State, m: bool)
    requires Run(s, es, t) && (Matched(s) <==> m)
    ensures Matched(t) <==> Carry(s, es, m)
    decreases |es|
  {
    if es != [] {
      MatchedStep(s, es[0]);
      LastWriteFrom(Step(s, es[0]), es[1..], t, if Writes(s, es[0]) then MatchedAfter(s, es[0]) else m);
    }
  }

  /** The refresh token a leader is about to spend, or has spent, from its second read on. */
  function Spending(pc: Pc): Option<string> {
    match pc
    case Recheck(_, row) => Some(row.refresh)
    case Granting(_, row) => Some(row.refresh)
    case Persist(_, _, spent) => Some(spent)
    case _ => None
  }

  predicate SpendsOrPast(pc: Pc, refresh: string) { Spending(pc) == Some(refresh) || pc.Finishing? || pc.Returned? }

  lemma {:induction false} SpendingStays(s: State, es: seq<Event>, t: State, c: nat, refresh: string)
    requires Run(s, es, t) && c < |s.calls| && SpendsOrPast(s.calls[c], refresh)
    ensures c < |t.calls| && SpendsOrPast(t.calls[c], refresh)
    decreases |es|
  {
    if es != [] {
      SpendingStays(Step(s, es[0]), es[1..], t, c, refresh);
    }
  }

  /** In terms of events: a save leaves the stored access token with the consent it
      was issued for exactly when the last callback since the leader's second read,
      if there was one, brought the refresh token found by that read. */
  lemma SaveBelongsExactly(r: State, c: nat, es: seq<Event>, t: State)
    requires Enabled(r, Reread(c)) && r.row.Some? && Run(Step(r, Reread(c)), es, t)
    requires t.row.Some? && Enabled(t, Save(c, true))
    ensures LastConsent(r.row, es).Some?
    ensures Matched(Step(t, Save(c, true))) <==> LastConsent(r.row, es).value.0 == r.row.value.refresh
  {
    var s := Step(r, Reread(c));
    assert s.calls[c] == Recheck(r.calls[c].f, r.row.value);
    SpendingStays(s, es, t, c, r.row.value.refresh);
    ConsentIsTheLastCallbacks(s, es, t);
    MatchedStep(t, Save(c, true));
  }

  /** With no callback and no disconnect since the second read it does. */
  lemma {:induction false} QuietKeepsConsent(init: Option<Row>, es: seq<Event>)
    requires init.Some? && forall e <- es :: !e.Callback? && !e.Disconnect?
    ensures LastConsent(init, es) == Some((init.value.refresh, init.value.scopes))
    decreases |es|
  {
    if es != [] {
      assert es[|es| - 1] in es;
      QuietKeepsConsent(init, es[..|es| - 1]);
    }
  }

  /** A callback that lands between a leader's grant and its save leaves the old
      consent's access token beside the new refresh token and scopes, and later
      calls serve it while it is fresh. */
  lemma CrossedCallback(s: State, c: nat, tok: Token, refresh: string, access: Token, scopes: seq<string>)
    requires c < |s.calls| && s.calls[c].Granting? && s.calls[c].row.refresh != refresh
    ensures var t := Step(Step(Step(s, Grant(c, tok)), Callback(refresh, access, scopes)), Save(c, true));
            && !Matched(t) && t.row.value.refresh == refresh && t.row.value.scopes == scopes
            && t.row.value.access == tok && t.origin == s.calls[c].row.refresh
            && forall d: nat :: d < |t.calls| && t.calls[d].Begin? && Fresh(t.row.value, t.now) ==>
                 Step(Step(t, Read(d)), Test(d)).calls[d] == Returned(Ok(tok))
  {
    var s1 := Step(s, Grant(c, tok));
    var s2 := Step(s1, Callback(refresh, access, scopes));
    assert s2.calls[c] == Persist(s.calls[c].f, tok, s.calls[c].row.refresh);
    var t := Step(s2, Save(c, true));
    forall d: nat | d < |t.calls| && t.calls[d].Begin? && Fresh(t.row.value, t.now)
      ensures Step(Step(t, Read(d)), Test(d)).calls[d] == Returned(Ok(tok))
    {
      assert Step(t, Read(d)).calls[d] == Check(t.row.value);
    }
  }

  function LeadEvents(c: nat): seq<Event> { [Read(c), Test(c), Join(c), Reread(c), Retest(c)] }

  function CrossEvents(c: nat, tok: Token, refresh: string, access: Token, scopes: seq<string>): seq<Event> {
    [Grant(c, tok), Callback(refresh, access, scopes), Save(c, true)]
  }

  lemma LoneCallLeads(s: State, c: nat) returns (t: State)
    requires s.row.Some? && s.current.None? && c < |s.calls| && s.calls[c].Begin? && !Fresh(s.row.value, s.now)
    ensures Run(s, LeadEvents(c), t) && c < |t.calls| && t.calls[c] == Granting(|s.flights|, s.row.value)
  {
    SoloCall(s, c);
    var s1 := Step(s, Read(c));
    var s2 := Step(s1, Test(c));
    var s3 := Step(s2, Join(c));
    var s4 := Step(s3, Reread(c));
    t := Step(s4, Retest(c));
    RunCons(s4, Retest(c), [], t);
    RunCons(s3, Reread(c), [Retest(c)], t);
    RunCons(s2, Join(c), [Reread(c), Retest(c)], t);
    RunCons(s1, Test(c), [Join(c), Reread(c), Retest(c)], t);
    RunCons(s, Read(c), [Test(c), Join(c), Reread(c), Retest(c)], t);
  }

  lemma CrossingIsARun(s: State, c: nat, tok: Token, refresh: string, access: Token, scopes: seq<string>)
    returns (t: State)
    requires c < |s.calls| && s.calls[c].Granting? && s.calls[c].row.refresh != refresh
    ensures Run(s, CrossEvents(c, tok, refresh, access, scopes), t) && !Matched(t)
  {
    CrossedCallback(s, c, tok, refresh, access, scopes);
    var s1 := Step(s, Grant(c, tok));
    var s2 := Step(s1, Callback(refresh, access, scopes));
    t := Step(s2, Save(c, true));
    RunCons(s2, Save(c, true), [], t);
    RunCons(s1, Callback(refresh, access, scopes), [Save(c, true)], t);
    RunCons(s, Grant(c, tok), [Callback(refresh, access, scopes), Save(c, true)], t);
  }

  /** Such a run from the start: one call finds a stale row and leads; while its
      grant is out, the user connects again. */
  lemma CrossedRun(s: State, tok: Token, refresh: string, access: Token, scopes: seq<string>)
    requires Init(s) && |s.calls| > 0 && s.row.Some? && !Fresh(s.row.value, s.now) && s.row.value.refresh != refresh
    ensures exists t :: Run(s, LeadEvents(0) + CrossEvents(0, tok, refresh, access, scopes), t) && !Matched(t)
  {
    var m := LoneCallLeads(s, 0);
    var t := CrossingIsARun(m, 0, tok, refresh, access, scopes);
    RunThen(s, LeadEvents(0), m, CrossEvents(0, tok, refresh, access, scopes), t);
  }

  lemma {:induction false} RunThen(s: State, es: seq<Event>, t: State, fs: seq<Event>, u: State)
    requires Run(s, es, t) && Run(t, fs, u)
    ensures Run(s, es + fs, u)
    decreases |es|
  {
    if es == [] {
      assert es + fs == fs;
    } else {
      RunThen(Step(s, es[0]), es[1..], t, fs, u);
      RunCons(s, es[0], es[1..] + fs, u);
      assert [es[0]] + (es[1..] + fs) == es + fs;
    }
  }

  lemma RunCons(s: State, e: Event, es: seq<Event>, t: State)
    requires Enabled(s, e) && Run(Step(s, e), es, t)
    ensures Run(s, [e] + es, t)
  {
    assert ([e] + es)[1..] == es;
  }

  lemma {:induction false} RunSplit(s: State, es: seq<Event>, t: State) returns (u: State)
    requires Run(s, es, t) && es != []
    ensures Run(s, es[..|es| - 1], u) && Enabled(u, es[|es| - 1]) && Step(u, es[|es| - 1]) == t
    decreases |es|
  {
    if |es| == 1 {
      u := s;
    } else {
      u := RunSplit(Step(s, es[0]), es[1..], t);
      assert es[..|es| - 1][1..] == es[1..][..|es| - 2];
    }
  }
}
