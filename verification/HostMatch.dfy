/** Egress allowlist matching: HostAllowed of internal/proxy/proxy.go, proved
    against a specification on dot-separated labels. Letter case is folded for
    ASCII letters only. */
module HostMatch {

  function LowerChar(c: char): char {
    if 'A' <= c <= 'Z' then (c as int + 32) as char else c
  }

  function Lower(s: string): string {
    seq(|s|, i requires 0 <= i < |s| => LowerChar(s[i]))
  }

  predicate EqualFold(a: string, b: string) { Lower(a) == Lower(b) }

  predicate HasSuffix(s: string, t: string) { |t| <= |s| && s[|s| - |t|..] == t }

  /** The position of the first dot, or the length when there is none. */
  function FirstDot(s: string): (i: nat)
    ensures i <= |s| && '.' !in s[..i] && (i < |s| ==> s[i] == '.')
  {
    if s == "" || s[0] == '.' then 0 else 1 + FirstDot(s[1..])
  }

  function Labels(s: string): (ls: seq<string>)
    ensures |ls| > 0
    decreases |s|
  {
    var i := FirstDot(s);
    if i == |s| then [s] else [s[..i]] + Labels(s[i + 1..])
  }

  /** The two cases of one ASCII letter. */
  predicate TwoCases(c: char, d: char) {
    || ('A' <= c <= 'Z' && d as int == c as int + 32)
    || ('A' <= d <= 'Z' && c as int == d as int + 32)
  }

  /** Folding compares position by position: equal characters, or the two cases of a letter. */
  lemma EqualFoldExactly(a: string, b: string)
    ensures EqualFold(a, b) <==>
            |a| == |b| && forall i :: 0 <= i < |a| ==> a[i] == b[i] || TwoCases(a[i], b[i])
  {
    if EqualFold(a, b) {
      assert |Lower(a)| == |Lower(b)|;
      forall i | 0 <= i < |a| ensures a[i] == b[i] || TwoCases(a[i], b[i]) {
        assert Lower(a)[i] == Lower(b)[i];
      }
    }
    if |a| == |b| && forall i :: 0 <= i < |a| ==> a[i] == b[i] || TwoCases(a[i], b[i]) {
      assert Lower(a) == Lower(b);
    }
  }

  // ----- the specification -----

  /** Entry `h` covers `host`: the same labels, or a one-label wildcard over a
      non-empty first label, ignoring case. */
  predicate Covers(h: string, host: string) {
    || SameFrom(Labels(host), Labels(h), 0)
    || ("*." <= h && Labels(host)[0] != "" && SameFrom(Labels(host), Labels(h), 1))
  }

  /** The same number of labels, equal up to case from position `n` on. */
  predicate SameFrom(hs: seq<string>, es: seq<string>, n: nat) {
    |hs| == |es| && forall i :: n <= i < |hs| ==> EqualFold(hs[i], es[i])
  }

  predicate Allowed(host: string, list: seq<string>) {
    exists i :: 0 <= i < |list| && Covers(list[i], host)
  }

  // ----- labels -----

  lemma FirstDotUnique(s: string, i: nat)
    requires i <= |s| && '.' !in s[..i] && (i < |s| ==> s[i] == '.')
    ensures FirstDot(s) == i
  {
    var j := FirstDot(s);
  }

  /** A dot-free label in front of a dot is the first label. */
  lemma LabelsCons(first: string, rest: string)
    requires '.' !in first
    ensures Labels(first + "." + rest) == [first] + Labels(rest)
  {
    var s := first + "." + rest;
    assert s[..|first|] == first && s[|first| + 1..] == rest;
    FirstDotUnique(s, |first|);
  }

  lemma FoldDot(c: char)
    ensures LowerChar(c) == '.' <==> c == '.'
  {
  }

  function LowerAll(ls: seq<string>): seq<string> {
    seq(|ls|, i requires 0 <= i < |ls| => Lower(ls[i]))
  }

  lemma LowerAllCons(l: string, ls: seq<string>)
    ensures LowerAll([l] + ls) == [Lower(l)] + LowerAll(ls)
  {
  }

  lemma FirstDotOfLower(s: string)
    ensures FirstDot(Lower(s)) == FirstDot(s)
  {
    var i := FirstDot(s);
    forall j | 0 <= j < i ensures Lower(s)[..i][j] != '.' {
      assert s[..i][j] != '.';
      FoldDot(s[j]);
    }
    FirstDotUnique(Lower(s), i);
  }

  lemma {:induction false} LabelsOfLower(s: string)
    ensures Labels(Lower(s)) == LowerAll(Labels(s))
    decreases |s|
  {
    var i := FirstDot(s);
    FirstDotOfLower(s);
    LabelsSplit(s);
    LabelsSplit(Lower(s));
    if i < |s| {
      LabelsOfLower(s[i + 1..]);
      LowerSlices(s, i);
      LowerAllCons(s[..i], Labels(s[i + 1..]));
    } else {
      LowerAllCons(s, []);
    }
  }

  lemma LowerSlices(s: string, i: nat)
    requires i < |s|
    ensures Lower(s)[..i] == Lower(s[..i]) && Lower(s)[i + 1..] == Lower(s[i + 1..])
  {
  }

  /** A string is its first label and, if there is a dot, the rest behind it. */
  lemma LabelsSplit(a: string)
    ensures var i := FirstDot(a);
            if i == |a| then Labels(a) == [a]
            else Labels(a) == [a[..i]] + Labels(a[i + 1..]) && a == a[..i] + "." + a[i + 1..]
  {
    if FirstDot(a) < |a| {
      Rejoin(a, FirstDot(a));
    }
  }

  lemma Rejoin(a: string, i: nat)
    requires i < |a| && a[i] == '.'
    ensures a == a[..i] + "." + a[i + 1..]
  {
  }

  lemma ConsInjective(x: string, xs: seq<string>, y: string, ys: seq<string>)
    requires [x] + xs == [y] + ys
    ensures x == y && xs == ys
  {
    assert ([x] + xs)[0] == x && ([x] + xs)[1..] == xs;
    assert ([y] + ys)[0] == y && ([y] + ys)[1..] == ys;
  }

  lemma {:induction false} LabelsInjective(a: string, b: string)
    requires Labels(a) == Labels(b)
    ensures a == b
    decreases |a|
  {
    LabelsSplit(a);
    LabelsSplit(b);
    var i, j := FirstDot(a), FirstDot(b);
    if i < |a| && j < |b| {
      ConsInjective(a[..i], Labels(a[i + 1..]), b[..j], Labels(b[j + 1..]));
      LabelsInjective(a[i + 1..], b[j + 1..]);
    }
  }

  /** Two strings are equal up to case exactly when their labels are. */
  lemma FoldByLabels(a: string, b: string)
    ensures EqualFold(a, b) <==> LowerAll(Labels(a)) == LowerAll(Labels(b))
  {
    LabelsOfLower(a);
    LabelsOfLower(b);
    if LowerAll(Labels(a)) == LowerAll(Labels(b)) {
      LabelsInjective(Lower(a), Lower(b));
    }
  }

  // ----- the code -----

  /** What precedes the suffix is one non-empty label. */
  predicate OneLabelBefore(s: string, suffix: string) {
    HasSuffix(s, suffix)
    && var first := s[..|s| - |suffix|];
       first != "" && '.' !in first
  }

  /** The body of the loop in HostAllowed for one entry. */
  predicate EntryMatches(host: string, h: string) {
    EqualFold(host, h) || ("*." <= h && OneLabelBefore(Lower(host), Lower(h[1..])))
  }

  lemma ExactEntry(host: string, h: string)
    ensures EqualFold(host, h) <==> SameFrom(Labels(host), Labels(h), 0)
  {
    FoldByLabels(host, h);
    var hs, es := Labels(host), Labels(h);
    if LowerAll(hs) == LowerAll(es) {
      assert |LowerAll(hs)| == |hs| && |LowerAll(es)| == |es|;
      forall i | 0 <= i < |es| ensures EqualFold(hs[i], es[i]) {
        assert LowerAll(hs)[i] == LowerAll(es)[i];
      }
    }
  }

  lemma SuffixGivesLabels(s: string, rest: string)
    requires OneLabelBefore(s, "." + rest)
    ensures |Labels(s)| > 1 && Labels(s)[0] != "" && Labels(s)[1..] == Labels(rest)
  {
    var first := s[..|s| - |rest| - 1];
    assert s == first + "." + rest;
    LabelsCons(first, rest);
  }

  lemma LabelsGiveSuffix(s: string, rest: string)
    requires |Labels(s)| > 1 && Labels(s)[0] != "" && Labels(s)[1..] == Labels(rest)
    ensures OneLabelBefore(s, "." + rest)
  {
    var i := FirstDot(s);
    assert Labels(s)[1..] == Labels(s[i + 1..]);
    LabelsInjective(s[i + 1..], rest);
    assert s[i..] == "." + rest;
    assert s[..|s| - |rest| - 1] == s[..i];
  }

  /** The wildcard branch: one non-empty label, then the labels of the entry. */
  lemma WildcardEntry(host: string, rest: string)
    ensures OneLabelBefore(Lower(host), "." + Lower(rest)) <==>
      |Labels(host)| > 1 && Labels(host)[0] != "" && LowerAll(Labels(host))[1..] == LowerAll(Labels(rest))
  {
    var lo, r := Lower(host), Lower(rest);
    LabelsOfLower(host);
    LabelsOfLower(rest);
    assert Labels(lo)[0] == Lower(Labels(host)[0]);
    if OneLabelBefore(lo, "." + r) {
      SuffixGivesLabels(lo, r);
    }
    if |Labels(lo)| > 1 && Labels(lo)[0] != "" && Labels(lo)[1..] == Labels(r) {
      LabelsGiveSuffix(lo, r);
    }
  }

  lemma EntryMatchesIsCovers(host: string, h: string)
    ensures EntryMatches(host, h) <==> Covers(h, host)
  {
    ExactEntry(host, h);
    if "*." <= h {
      WildcardIsCovers(host, h[2..]);
      assert h == "*" + "." + h[2..];
      assert h[1..] == "." + h[2..];
    }
  }

  lemma WildcardIsCovers(host: string, rest: string)
    ensures OneLabelBefore(Lower(host), Lower("." + rest)) <==>
      Labels(host)[0] != "" && SameFrom(Labels(host), Labels("*" + "." + rest), 1)
  {
    LabelsCons("*", rest);
    assert Lower("." + rest) == "." + Lower(rest);
    WildcardEntry(host, rest);
    TailFold(Labels(host), Labels(rest), "*");
  }

  lemma TailFold(hs: seq<string>, rs: seq<string>, e: string)
    requires |hs| > 0 && |rs| > 0
    ensures |hs| > 1 && LowerAll(hs)[1..] == LowerAll(rs) <==> SameFrom(hs, [e] + rs, 1)
  {
    if |hs| > 1 && LowerAll(hs)[1..] == LowerAll(rs) {
      assert |LowerAll(hs)[1..]| == |LowerAll(rs)|;
      forall i | 1 <= i < |hs| ensures EqualFold(hs[i], ([e] + rs)[i]) {
        assert LowerAll(hs)[1..][i - 1] == LowerAll(rs)[i - 1];
      }
    }
    if SameFrom(hs, [e] + rs, 1) {
      forall i | 0 <= i < |rs| ensures LowerAll(hs)[1..][i] == LowerAll(rs)[i] {
        assert EqualFold(hs[i + 1], ([e] + rs)[i + 1]);
      }
      assert LowerAll(hs)[1..] == LowerAll(rs);
    }
  }

  /** Only which entries are listed matters, and adding entries never withdraws a permission. */
  lemma MoreEntriesAllowMore(host: string, list: seq<string>, more: seq<string>)
    requires Allowed(host, list) && forall h <- list :: h in more
    ensures Allowed(host, more)
  {
    var i :| 0 <= i < |list| && Covers(list[i], host);
    assert list[i] in list && list[i] in more;
    var j :| 0 <= j < |more| && more[j] == list[i];
    assert Covers(more[j], host);
  }

  // ----- comparing two lists -----

  /** What a list must hold for every host of entry `e` to be in it: the same
      wildcard, or an entry that covers the one host. */
  predicate Subsumed(e: string, list: seq<string>) {
    if "*." <= e then exists i :: 0 <= i < |list| && EqualFold(list[i], e) else Allowed(e, list)
  }

  /** Letter case matters neither in the host nor in the entry. */
  lemma CoversFolds(h: string, host: string, h': string, host': string)
    requires EqualFold(h, h') && EqualFold(host, host')
    ensures Covers(h, host) <==> Covers(h', host')
  {
    ExactEntry(h, h');
    ExactEntry(host, host');
    StarFolds(h, h');
    SameFromFolds(Labels(host), Labels(h), Labels(host'), Labels(h'), 0);
    SameFromFolds(Labels(host), Labels(h), Labels(host'), Labels(h'), 1);
    EmptyFolds(Labels(host)[0], Labels(host')[0]);
  }

  lemma SameFromFolds(hs: seq<string>, es: seq<string>, hs': seq<string>, es': seq<string>, n: nat)
    requires SameFrom(hs, hs', 0) && SameFrom(es, es', 0)
    ensures SameFrom(hs, es, n) <==> SameFrom(hs', es', n)
  {
  }

  lemma EmptyFolds(a: string, b: string)
    requires EqualFold(a, b)
    ensures |a| == |b|
  {
    assert |Lower(a)| == |Lower(b)|;
  }

  lemma StarFolds(h: string, h': string)
    requires EqualFold(h, h')
    ensures "*." <= h <==> "*." <= h'
  {
    EmptyFolds(h, h');
    assert forall i :: 0 <= i < |h| ==> LowerChar(h[i]) == Lower(h)[i] == Lower(h')[i] == LowerChar(h'[i]);
  }

  function Fill(n: nat): string { seq(n, _ => 'a') }

  /** Under a wildcard, a first label longer than every entry is matched by that
      wildcard only. */
  lemma LongLabelNeedsWildcard(h: string, rest: string, n: nat)
    requires n > |h| && Covers(h, Fill(n) + "." + rest)
    ensures EqualFold(h, "*." + rest)
  {
    var first, host := Fill(n), Fill(n) + "." + rest;
    LabelsCons(first, rest);
    ExactEntry(host, h);
    if EqualFold(host, h) {
      EmptyFolds(host, h);
      assert false;
    }
    WildcardTail(h, first, rest);
  }

  lemma WildcardTail(h: string, first: string, rest: string)
    requires "*." <= h && SameFrom([first] + Labels(rest), Labels(h), 1)
    ensures EqualFold(h, "*." + rest)
  {
    var tail := h[2..];
    assert h == "*" + "." + tail && "*." + rest == "*" + "." + rest;
    LabelsCons("*", tail);
    LabelsCons("*", rest);
    forall i | 0 <= i < |Labels(h)| ensures EqualFold(Labels(h)[i], Labels("*." + rest)[i]) {
      if i > 0 {
        assert EqualFold(([first] + Labels(rest))[i], Labels(h)[i]);
      }
    }
    ExactEntry(h, "*." + rest);
  }

  function Longest(list: seq<string>): nat {
    if list == [] then 0
    else
      var n, m := |list[|list| - 1]|, Longest(list[..|list| - 1]);
      if n > m then n else m
  }

  lemma {:induction false} LongestBounds(list: seq<string>, i: nat)
    requires i < |list|
    ensures |list[i]| <= Longest(list)
  {
    if i < |list| - 1 {
      LongestBounds(list[..|list| - 1], i);
    }
  }

  lemma LongHostCovered(rest: string, n: nat)
    requires n > 0
    ensures Covers("*." + rest, Fill(n) + "." + rest)
  {
    LabelsCons("*", rest);
    LabelsCons(Fill(n), rest);
    assert "*." + rest == "*" + "." + rest;
    assert |Fill(n)| == n;
  }

  lemma WildcardHosts(e: string, list: seq<string>)
    requires "*." <= e && forall host :: Covers(e, host) ==> Allowed(host, list)
    ensures Subsumed(e, list)
  {
    var rest, n := e[2..], Longest(list) + 1;
    var host := Fill(n) + "." + rest;
    assert "*." + rest == e;
    LongHostCovered(rest, n);
    var i :| 0 <= i < |list| && Covers(list[i], host);
    LongestBounds(list, i);
    LongLabelNeedsWildcard(list[i], rest, n);
  }

  lemma SubsumedHosts(e: string, list: seq<string>, host: string)
    requires Subsumed(e, list) && Covers(e, host)
    ensures Allowed(host, list)
  {
    if "*." <= e {
      var i :| 0 <= i < |list| && EqualFold(list[i], e);
      CoversFolds(list[i], host, e, host);
    } else {
      var i :| 0 <= i < |list| && Covers(list[i], e);
      ExactEntry(host, e);
      CoversFolds(list[i], e, list[i], host);
    }
  }

  /** One list admits no host that another does not, exactly when each of its entries
      is subsumed: a test on the two lists alone. */
  lemma WithinExactly(list: seq<string>, other: seq<string>)
    ensures (forall host :: Allowed(host, list) ==> Allowed(host, other)) <==>
            forall i :: 0 <= i < |list| ==> Subsumed(list[i], other)
  {
    if forall host :: Allowed(host, list) ==> Allowed(host, other) {
      forall i | 0 <= i < |list| ensures Subsumed(list[i], other) {
        ExactEntry(list[i], list[i]);
        assert Allowed(list[i], list);
        if "*." <= list[i] {
          assert forall host :: Covers(list[i], host) ==> Allowed(host, list);
          WildcardHosts(list[i], other);
        }
      }
    }
    if forall i :: 0 <= i < |list| ==> Subsumed(list[i], other) {
      forall host | Allowed(host, list) ensures Allowed(host, other) {
        var i :| 0 <= i < |list| && Covers(list[i], host);
        SubsumedHosts(list[i], other, host);
      }
    }
  }

  /** For every host and list the code decides exactly the label specification. */
  method HostAllowed(host: string, list: seq<string>) returns (r: bool)
    ensures r <==> Allowed(host, list)
  {
    var hostLower := Lower(host);
    for i := 0 to |list|
      invariant forall j :: 0 <= j < i ==> !Covers(list[j], host)
    {
      var h := list[i];
      EntryMatchesIsCovers(host, h);
      if EqualFold(host, h) {
        return true;
      }
      if "*." <= h {
        var suffix := Lower(h[1..]);
        if !HasSuffix(hostLower, suffix) {
          continue;
        }
        var first := hostLower[..|hostLower| - |suffix|];
        if first != "" && '.' !in first {
          return true;
        }
      }
    }
    return false;
  }
}
