/** Shared vocabulary: optional values and sequences without repetition. */
module Common {

  datatype Option<+T> = None | Some(value: T)

  ghost predicate NoDup<T>(q: seq<T>) {
    forall i, j :: 0 <= i < j < |q| ==> q[i] != q[j]
  }

  lemma NoDupConcat<T>(p: seq<T>, q: seq<T>)
    requires NoDup(p) && NoDup(q) && forall b :: b in p ==> b !in q
    ensures NoDup(p + q)
  {
    forall i, j | 0 <= i < j < |p + q| ensures (p + q)[i] != (p + q)[j] {
      if i < |p| <= j {
        assert p[i] in p && q[j - |p|] in q;
      }
    }
  }

  lemma SplitNoDup<T>(q: seq<T>, n: nat)
    requires n <= |q|
    ensures forall b :: b in q <==> b in q[..n] || b in q[n..]
    ensures NoDup(q) ==> NoDup(q[..n]) && NoDup(q[n..]) && forall b :: b in q[..n] ==> b !in q[n..]
  {
    assert q == q[..n] + q[n..];
  }

  lemma {:induction false} NoDupCounts<T>(q: seq<T>, b: T)
    requires NoDup(q)
    ensures multiset(q)[b] == if b in q then 1 else 0
  {
    if q != [] {
      assert q == [q[0]] + q[1..];
      NoDupCounts(q[1..], b);
    }
  }
}
