/** Keyset paging of the audit table: ListAudit of internal/store/audit.go and
    handleListAudit of internal/api/audit.go, and a client that follows
    next_before while rows keep being appended. */
module AuditPaging {
  import opened Common

  datatype Row = Row(id: int, user: Option<int>, detail: string)

  /** Rows in insertion order; AUTOINCREMENT ids grow from 1. */
  ghost predicate Valid(t: seq<Row>) {
    && (forall i :: 0 <= i < |t| ==> t[i].id >= 1)
    && (forall i, j :: 0 <= i < j < |t| ==> t[i].id < t[j].id)
  }

  predicate Wanted(r: Row, before: int, user: int) {
    (before > 0 ==> r.id < before) && (user != 0 ==> r.user == Some(user))
  }

  /** The rows the query ranges over, newest first. */
  function Select(t: seq<Row>, before: int, user: int): seq<Row> {
    if t == [] then []
    else
      var n := |t| - 1;
      (if Wanted(t[n], before, user) then [t[n]] else []) + Select(t[..n], before, user)
  }

  function StoreLimit(limit: int): nat { if limit <= 0 then 100 else if limit > 500 then 500 else limit }

  function ApiLimit(limit: int): nat { if limit <= 0 || limit > 200 then 50 else limit }

  function Page(t: seq<Row>, before: int, limit: int, user: int): seq<Row> {
    Take(Select(t, before, user), StoreLimit(limit))
  }

  function Take(s: seq<Row>, n: nat): seq<Row> { if |s| <= n then s else s[..n] }

  /** Looking at one more row from the end. */
  lemma SelectNext(t: seq<Row>, i: nat, before: int, user: int, out: seq<Row>)
    requires 0 < i <= |t|
    ensures var rest := Select(t[..i - 1], before, user);
            out + Select(t[..i], before, user) ==
            if Wanted(t[i - 1], before, user) then (out + [t[i - 1]]) + rest else out + rest
  {
    assert t[..i][..i - 1] == t[..i - 1];
    Reassociate(out, [t[i - 1]], Select(t[..i - 1], before, user));
  }

  lemma Reassociate(a: seq<Row>, b: seq<Row>, c: seq<Row>)
    ensures a + (b + c) == (a + b) + c
  {
  }

  method ListAudit(t: seq<Row>, before: int, limit: int, user: int) returns (out: seq<Row>)
    ensures out == Page(t, before, limit, user)
  {
    var cap := if limit <= 0 then 100 else limit;
    if cap > 500 {
      cap := 500;
    }
    out := [];
    var i := |t|;
    assert t[..i] == t;
    while i > 0 && |out| < cap
      invariant 0 <= i <= |t| && |out| <= cap
      invariant out + Select(t[..i], before, user) == Select(t, before, user)
    {
      SelectNext(t, i, before, user, out);
      i := i - 1;
      if Wanted(t[i], before, user) {
        out := out + [t[i]];
      }
    }
  }

  /** Who asks: a view-as session, an ordinary user, or an admin with an optional filter. */
  datatype Viewer = ViewAs(target: int) | Plain(id: int) | Admin(filter: int)

  function UserFilter(v: Viewer): int {
    match v
    case ViewAs(target) => target
    case Plain(id) => id
    case Admin(filter) => filter
  }

  function Next(page: seq<Row>, limit: nat): int {
    if |page| < limit || page == [] then 0 else page[|page| - 1].id
  }

  method HandleListAudit(t: seq<Row>, before: int, limitParam: int, v: Viewer) returns (out: seq<Row>, next: int)
    ensures out == Page(t, before, ApiLimit(limitParam), UserFilter(v))
    ensures next == Next(out, ApiLimit(limitParam))
  {
    var limit := if limitParam <= 0 || limitParam > 200 then 50 else limitParam;
    var events := ListAudit(t, before, limit, UserFilter(v));
    out, next := [], 0;
    for i := 0 to |events|
      invariant out == events[..i]
      invariant next == if i == 0 then 0 else events[i - 1].id
    {
      out := out + [events[i]];
      next := events[i].id;
    }
    if |events| < limit {
      next := 0;
    }
  }

  // ----- the selection -----

  ghost predicate Descending(s: seq<Row>) { forall i, j :: 0 <= i < j < |s| ==> s[i].id > s[j].id }

  lemma DescendingCons(r: Row, s: seq<Row>)
    requires Descending(s) && forall x :: x in s ==> x.id < r.id
    ensures Descending([r] + s)
  {
    var t := [r] + s;
    forall i, j | 0 <= i < j < |t| ensures t[i].id > t[j].id {
      assert t[j] == s[j - 1] && s[j - 1] in s;
    }
  }

  lemma ValidLast(t: seq<Row>)
    requires Valid(t) && t != []
    ensures Valid(t[..|t| - 1]) && forall r :: r in t[..|t| - 1] ==> r.id < t[|t| - 1].id
    ensures forall r :: r in t <==> r in t[..|t| - 1] || r == t[|t| - 1]
  {
    assert t == t[..|t| - 1] + [t[|t| - 1]];
  }

  /** The selection holds exactly the wanted rows, in strictly descending id order. */
  lemma {:induction false} SelectExact(t: seq<Row>, before: int, user: int)
    requires Valid(t)
    ensures forall r :: r in Select(t, before, user) <==> r in t && Wanted(r, before, user)
    ensures Descending(Select(t, before, user))
  {
    if t != [] {
      var n := |t| - 1;
      var rest := Select(t[..n], before, user);
      ValidLast(t);
      SelectExact(t[..n], before, user);
      if Wanted(t[n], before, user) {
        DescendingCons(t[n], rest);
      } else {
        assert Select(t, before, user) == rest;
      }
    }
  }

  /** A bound above every id selects like no bound. */
  lemma {:induction false} SelectLoose(t: seq<Row>, b: int, c: int, user: int)
    requires forall i :: 0 <= i < |t| ==> (b <= 0 || t[i].id < b) && (c <= 0 || t[i].id < c)
    ensures Select(t, b, user) == Select(t, c, user)
  {
    if t != [] {
      SelectLoose(t[..|t| - 1], b, c, user);
    }
  }

  /** Continuing below the k-th selected row selects exactly what follows it. */
  lemma {:induction false} SelectBelow(t: seq<Row>, before: int, user: int, k: nat)
    requires Valid(t) && k < |Select(t, before, user)|
    ensures Select(t, Select(t, before, user)[k].id, user) == Select(t, before, user)[k + 1..]
  {
    var n := |t| - 1;
    var s, rest := Select(t, before, user), Select(t[..n], before, user);
    ValidLast(t);
    if !Wanted(t[n], before, user) {
      assert s == rest;
      SelectBelow(t[..n], before, user, k);
      SkipsLast(t, before, user, k);
    } else if k == 0 {
      SelectLoose(t[..n], before, t[n].id, user);
      assert s[1..] == rest;
    } else {
      assert s[k] == rest[k - 1] && s[k + 1..] == rest[k..];
      SelectBelow(t[..n], before, user, k - 1);
      SkipsLast(t, before, user, k - 1);
    }
  }

  /** A bound taken from an earlier row leaves the last row out. */
  lemma SkipsLast(t: seq<Row>, before: int, user: int, k: nat)
    requires Valid(t) && t != [] && k < |Select(t[..|t| - 1], before, user)|
    ensures var id := Select(t[..|t| - 1], before, user)[k].id; Select(t, id, user) == Select(t[..|t| - 1], id, user)
  {
    var rest := Select(t[..|t| - 1], before, user);
    ValidLast(t);
    SelectExact(t[..|t| - 1], before, user);
    assert rest[k] in rest;
  }

  /** Rows appended later do not show below an id that is already in the table. */
  lemma {:induction false} SelectStable(t: seq<Row>, u: seq<Row>, before: int, user: int)
    requires Valid(u) && t <= u && exists i :: 0 <= i < |t| && before <= t[i].id
    requires before > 0
    ensures Select(u, before, user) == Select(t, before, user)
    decreases |u|
  {
    if |u| == |t| {
      assert u == t;
    } else {
      var n := |u| - 1;
      var i :| 0 <= i < |t| && before <= t[i].id;
      assert u[i].id < u[n].id;
      SelectStable(t, u[..n], before, user);
    }
  }

  // ----- following the pages -----

  /** The table at each request; rows are only ever appended. */
  ghost predicate History(tables: nat -> seq<Row>) {
    forall k: nat :: Valid(tables(k)) && tables(0) <= tables(k)
  }

  lemma PageSteps(t: seq<Row>, before: int, limit: nat, user: int)
    requires Valid(t) && 1 <= limit <= 200
    ensures var page := Page(t, before, limit, user);
            var next := Next(page, limit);
            && (next == 0 ==> page == Select(t, before, user))
            && (next != 0 ==> next > 0 && (before > 0 ==> next < before))
            && (next != 0 ==> exists i :: 0 <= i < |t| && t[i].id == next)
            && (next != 0 ==> Select(t, before, user) == page + Select(t, next, user))
  {
    var s := Select(t, before, user);
    if |s| >= limit {
      FullPage(s, limit);
      NextPage(t, before, limit, user, s);
    }
  }

  lemma NextPage(t: seq<Row>, before: int, limit: nat, user: int, s: seq<Row>)
    requires Valid(t) && s == Select(t, before, user) && 1 <= limit <= |s|
    ensures var next := s[limit - 1].id;
            && next > 0 && (before > 0 ==> next < before) && (exists i :: 0 <= i < |t| && t[i].id == next)
            && Select(t, next, user) == s[limit..]
  {
    Selected(t, before, user, s[limit - 1]);
    SelectBelow(t, before, user, limit - 1);
  }

  lemma FullPage(s: seq<Row>, n: nat)
    requires 1 <= n <= |s|
    ensures Next(Take(s, n), n) == s[n - 1].id && s == Take(s, n) + s[n..]
  {
  }

  lemma Selected(t: seq<Row>, before: int, user: int, r: Row)
    requires Valid(t) && r in Select(t, before, user)
    ensures r.id > 0 && (before > 0 ==> r.id < before) && exists i :: 0 <= i < |t| && t[i].id == r.id
  {
    SelectExact(t, before, user);
    var i :| 0 <= i < |t| && t[i] == r;
  }

  /** The client: request after request, from `before`, until next_before is 0. */
  ghost function Follow(tables: nat -> seq<Row>, i: nat, before: int, limit: nat, user: int): seq<Row>
    requires History(tables) && 1 <= limit <= 200
    decreases before <= 0, before
  {
    var page := Page(tables(i), before, limit, user);
    var next := Next(page, limit);
    PageSteps(tables(i), before, limit, user);
    if next == 0 then page else page + Follow(tables, i + 1, next, limit, user)
  }

  lemma {:induction false} FollowFrom(tables: nat -> seq<Row>, i: nat, before: int, limit: nat, user: int)
    requires History(tables) && 1 <= limit <= 200
    requires before > 0 && exists j :: 0 <= j < |tables(0)| && tables(0)[j].id == before
    ensures Follow(tables, i, before, limit, user) == Select(tables(0), before, user)
    decreases before
  {
    SelectStable(tables(0), tables(i), before, user);
    PageSteps(tables(i), before, limit, user);
    var page := Page(tables(i), before, limit, user);
    var next := Next(page, limit);
    if next != 0 {
      NextIsOld(tables, i, before, limit, user);
      SelectStable(tables(0), tables(i), next, user);
      FollowFrom(tables, i + 1, next, limit, user);
    }
  }

  lemma NextIsOld(tables: nat -> seq<Row>, i: nat, before: int, limit: nat, user: int)
    requires History(tables) && 1 <= limit <= 200
    requires before > 0 && exists j :: 0 <= j < |tables(0)| && tables(0)[j].id == before
    requires Next(Page(tables(i), before, limit, user), limit) != 0
    ensures exists j :: 0 <= j < |tables(0)| && tables(0)[j].id == Next(Page(tables(i), before, limit, user), limit)
  {
    var page := Page(tables(i), before, limit, user);
    SelectStable(tables(0), tables(i), before, user);
    SelectExact(tables(0), before, user);
    assert page[|page| - 1] in Select(tables(0), before, user);
  }

  /** Paging from the newest row with any fixed limit parameter and filter, with
      arbitrary appends between requests, terminates and returns exactly the
      matching rows that existed at the first request, each once, newest first. */
  lemma PagingIsASnapshot(tables: nat -> seq<Row>, limitParam: int, v: Viewer)
    requires History(tables)
    ensures 1 <= ApiLimit(limitParam) <= 200
    ensures Follow(tables, 0, 0, ApiLimit(limitParam), UserFilter(v)) == Select(tables(0), 0, UserFilter(v))
  {
    var limit, user := ApiLimit(limitParam), UserFilter(v);
    PageSteps(tables(0), 0, limit, user);
    var page := Page(tables(0), 0, limit, user);
    if Next(page, limit) != 0 {
      FollowFrom(tables, 1, Next(page, limit), limit, user);
    }
  }

  /** What each viewer is shown in the end: an ordinary user their own rows, a view-as
      session its target's, an admin those of the user asked for; 0 stands for all. */
  lemma VisibleExactly(tables: nat -> seq<Row>, limitParam: int, v: Viewer, r: Row)
    requires History(tables)
    ensures var seen := r in Follow(tables, 0, 0, ApiLimit(limitParam), UserFilter(v));
            && (v.Plain? ==> (seen <==> r in tables(0) && (v.id == 0 || r.user == Some(v.id))))
            && (v.ViewAs? ==> (seen <==> r in tables(0) && (v.target == 0 || r.user == Some(v.target))))
            && (v.Admin? ==> (seen <==> r in tables(0) && (v.filter == 0 || r.user == Some(v.filter))))
  {
    PagingIsASnapshot(tables, limitParam, v);
    SelectExact(tables(0), 0, UserFilter(v));
  }

  /** An ordinary user, or a view-as session, sees no other user's rows, exactly when
      its user id is not 0, which the query takes for no filter, or there are none. */
  lemma OwnRowsOnly(tables: nat -> seq<Row>, limitParam: int, v: Viewer)
    requires History(tables) && !v.Admin?
    ensures var me := if v.Plain? then v.id else v.target;
            (forall r :: r in Follow(tables, 0, 0, ApiLimit(limitParam), UserFilter(v)) ==> r.user == Some(me)) <==>
            me != 0 || forall r <- tables(0) :: r.user == Some(0)
  {
    forall r {
      VisibleExactly(tables, limitParam, v, r);
    }
  }

  function Least(a: nat, b: nat): nat { if a < b then a else b }

  /** A page has as many rows as asked for, or as there are: the API takes 1 to 200 and
      50 for anything else; the store 1 to 500, with 100 for less and 500 for more. */
  lemma PageSizes(t: seq<Row>, before: int, limit: int, user: int)
    ensures var all := |Select(t, before, user)|;
            && (1 <= limit <= 200 ==> |Page(t, before, ApiLimit(limit), user)| == Least(all, limit))
            && (!(1 <= limit <= 200) ==> |Page(t, before, ApiLimit(limit), user)| == Least(all, 50))
            && (1 <= limit <= 500 ==> |Page(t, before, limit, user)| == Least(all, limit))
            && (limit <= 0 ==> |Page(t, before, limit, user)| == Least(all, 100))
            && (limit > 500 ==> |Page(t, before, limit, user)| == Least(all, 500))
  {
  }
}
