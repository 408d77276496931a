/** Toolpack bundle extraction: extractBundle of internal/oci/oci.go. Archive
    entries carry their cleaned path and the outcome of the file system calls
    made for them; the staging directory is a map from names to files. */
module Bundle {
  import opened Common

  const MAX_FILES: nat := 8
  const MAX_BYTES: nat := 0x400_0000       // 64 MiB
  const MAX_SIDECAR: nat := 0x10_0000      // 1 MiB
  const MANIFEST := "manifest.yaml"
  const TOOLSPEC := "toolspec.yaml"

  datatype Kind = Regular | Directory | Link | Other

  /** `size` is what the tar header claims, `body` what the stream delivers. */
  datatype Entry = Entry(clean: string, kind: Kind, exec: bool, size: int, body: nat, ioOk: bool)

  datatype Item = Next(e: Entry) | ReadError

  datatype File = File(bytes: nat, exec: bool)

  type Dir = map<string, File>

  function Prefix(bundleDir: string): string {
    (if "/" <= bundleDir then bundleDir[1..] else bundleDir) + "/"
  }

  predicate InScope(clean: string, prefix: string) {
    prefix <= clean + "/" && clean + "/" != prefix
  }

  function Rel(clean: string, prefix: string): string {
    if prefix <= clean then clean[|prefix|..] else clean
  }

  // ----- the contract -----

  /** The entries under the bundle directory, in archive order. */
  function Scope(items: seq<Item>, prefix: string): seq<Entry> {
    if items == [] then []
    else
      var last := items[|items| - 1];
      Scope(items[..|items| - 1], prefix) +
      if last.Next? && InScope(last.e.clean, prefix) then [last.e] else []
  }

  /** A plain file directly under the directory, executable only if it is the
      entrypoint, small unless it is the entrypoint, and written without error. */
  predicate Fits(e: Entry, prefix: string, entryBase: string) {
    var rel := Rel(e.clean, prefix);
    && '/' !in rel && e.kind == Regular
    && (rel == entryBase || (!e.exec && e.size <= MAX_SIDECAR))
    && e.ioOk
  }

  function Sum(es: seq<Entry>): nat {
    if es == [] then 0 else Sum(es[..|es| - 1]) + es[|es| - 1].body
  }

  function Names(es: seq<Entry>, prefix: string): set<string> {
    set i | 0 <= i < |es| :: Rel(es[i].clean, prefix)
  }

  /** What every entry and the caps must satisfy. */
  ghost predicate Scannable(items: seq<Item>, prefix: string, entryBase: string) {
    var es := Scope(items, prefix);
    && (forall i :: 0 <= i < |items| ==> items[i].Next?)
    && AllFit(es, prefix, entryBase)
    && |es| <= MAX_FILES && Sum(es) <= MAX_BYTES
  }

  /** Exactly what a bundle must be to be accepted. */
  ghost predicate Acceptable(items: seq<Item>, prefix: string, entryBase: string) {
    Scannable(items, prefix, entryBase) && Names(Scope(items, prefix), prefix) == {entryBase, MANIFEST, TOOLSPEC}
  }

  /** Creating or truncating a file: an existing one keeps its mode. */
  function Put(d: Dir, rel: string, bytes: nat, entryBase: string): Dir {
    d[rel := File(bytes, if rel in d then d[rel].exec else rel == entryBase)]
  }

  function WriteAll(d: Dir, es: seq<Entry>, prefix: string, entryBase: string): Dir {
    if es == [] then d
    else
      var n := |es| - 1;
      Put(WriteAll(d, es[..n], prefix, entryBase), Rel(es[n].clean, prefix), es[n].body, entryBase)
  }

  // ----- lemmas about prefixes of the archive -----

  lemma {:induction false} ScopeGrows(items: seq<Item>, i: nat, prefix: string)
    requires i <= |items|
    ensures Scope(items[..i], prefix) <= Scope(items, prefix)
    decreases |items|
  {
    if i == |items| {
      assert items[..i] == items;
    } else {
      var n := |items| - 1;
      ScopeGrows(items[..n], i, prefix);
      assert items[..n][..i] == items[..i];
    }
  }

  lemma {:induction false} SumGrows(es: seq<Entry>, k: nat)
    requires k <= |es|
    ensures Sum(es[..k]) <= Sum(es)
    decreases |es|
  {
    if k == |es| {
      assert es[..k] == es;
    } else {
      var n := |es| - 1;
      SumGrows(es[..n], k);
      assert es[..n][..k] == es[..k];
    }
  }

  /** A violation found in a prefix of the archive is a violation of the whole. */
  lemma PrefixRejects(items: seq<Item>, i: nat, prefix: string, entryBase: string)
    requires i <= |items|
    requires var es := Scope(items[..i], prefix);
      || |es| > MAX_FILES || Sum(es) > MAX_BYTES
      || exists k :: 0 <= k < |es| && !Fits(es[k], prefix, entryBase)
    ensures !Scannable(items, prefix, entryBase)
  {
    var es, all := Scope(items[..i], prefix), Scope(items, prefix);
    ScopeGrows(items, i, prefix);
    assert es == all[..|es|];
    SumGrows(all, |es|);
    if k :| 0 <= k < |es| && !Fits(es[k], prefix, entryBase) {
      assert all[k] == es[k];
    }
  }

  lemma ScopeStep(items: seq<Item>, i: nat, prefix: string)
    requires i < |items| && items[i].Next?
    ensures Scope(items[..i + 1], prefix) ==
      Scope(items[..i], prefix) + if InScope(items[i].e.clean, prefix) then [items[i].e] else []
  {
    assert items[..i + 1][..i] == items[..i];
  }

  lemma AppendedEntry(es: seq<Entry>, e: Entry, prefix: string, entryBase: string, d: Dir)
    ensures Sum(es + [e]) == Sum(es) + e.body
    ensures Names(es + [e], prefix) == Names(es, prefix) + {Rel(e.clean, prefix)}
    ensures WriteAll(d, es + [e], prefix, entryBase) ==
      Put(WriteAll(d, es, prefix, entryBase), Rel(e.clean, prefix), e.body, entryBase)
  {
    var fs := es + [e];
    assert fs[..|es|] == es;
    forall x | x in Names(es, prefix) + {Rel(e.clean, prefix)} ensures x in Names(fs, prefix) {
      if x in Names(es, prefix) {
        var i :| 0 <= i < |es| && Rel(es[i].clean, prefix) == x;
        assert fs[i] == es[i];
      } else {
        assert fs[|es|] == e;
      }
    }
  }

  // ----- the scan -----

  /** The checks and the capped copy for one entry: `n` bytes reach the disk,
      and the entry is admitted exactly when it fits and no cap is passed. */
  method Admit(e: Entry, rel: string, entryBase: string, count: nat, total: nat) returns (ok: bool, n: nat)
    requires total <= MAX_BYTES
    ensures ok <==>
      && '/' !in rel && e.kind == Regular && (rel == entryBase || (!e.exec && e.size <= MAX_SIDECAR)) && e.ioOk
      && count + 1 <= MAX_FILES && total + e.body <= MAX_BYTES
    ensures total + n <= MAX_BYTES + 1 && (ok ==> n == e.body)
  {
    n := 0;
    if '/' in rel {
      return false, 0;
    }
    if e.kind != Regular {
      return false, 0;
    }
    if rel != entryBase && e.exec {
      return false, 0;
    }
    if count + 1 > MAX_FILES {
      return false, 0;
    }
    if rel != entryBase && e.size > MAX_SIDECAR {
      return false, 0;
    }
    var remaining := MAX_BYTES - total;
    n := if e.body <= remaining + 1 then e.body else remaining + 1;
    if !e.ioOk {
      return false, n;
    }
    return total + n <= MAX_BYTES, n;
  }

  /** What the loop variables of extractBundle hold. */
  datatype Scanned = Scanned(d: Dir, written: set<string>, sawEntry: bool, count: nat, total: nat)

  /** They describe the entries `es` admitted so far. */
  ghost predicate Describes(v: Scanned, es: seq<Entry>, prefix: string, entryBase: string, before: Dir) {
    && v.count == |es| <= MAX_FILES && v.total == Sum(es) <= MAX_BYTES
    && v.written == Names(es, prefix) && (v.sawEntry <==> entryBase in v.written)
    && v.d == WriteAll(before, es, prefix, entryBase)
  }

  ghost predicate AllFit(es: seq<Entry>, prefix: string, entryBase: string) {
    forall i :: 0 <= i < |es| ==> Fits(es[i], prefix, entryBase)
  }

  function Add(v: Scanned, rel: string, n: nat, entryBase: string): Scanned {
    Scanned(Put(v.d, rel, n, entryBase), v.written + {rel}, v.sawEntry || rel == entryBase, v.count + 1, v.total + n)
  }

  lemma AddDescribes(v: Scanned, es: seq<Entry>, e: Entry, prefix: string, entryBase: string, before: Dir)
    requires Describes(v, es, prefix, entryBase, before) && AllFit(es, prefix, entryBase) && Fits(e, prefix, entryBase)
    requires |es| + 1 <= MAX_FILES && Sum(es) + e.body <= MAX_BYTES
    ensures Describes(Add(v, Rel(e.clean, prefix), e.body, entryBase), es + [e], prefix, entryBase, before)
    ensures AllFit(es + [e], prefix, entryBase)
  {
    AppendedEntry(es, e, prefix, entryBase, before);
    AppendedFits(es, e, prefix, entryBase);
  }

  lemma AppendedFits(es: seq<Entry>, e: Entry, prefix: string, entryBase: string)
    requires AllFit(es, prefix, entryBase) && Fits(e, prefix, entryBase)
    ensures AllFit(es + [e], prefix, entryBase)
  {
  }

  /** One entry of the bundle; `bytes` is what has been written by then. */
  method Visit(v: Scanned, e: Entry, prefix: string, entryBase: string, before: Dir, ghost es: seq<Entry>)
    returns (ok: bool, next: Scanned, bytes: nat)
    requires Describes(v, es, prefix, entryBase, before) && AllFit(es, prefix, entryBase)
    ensures ok <==> Fits(e, prefix, entryBase) && |es| + 1 <= MAX_FILES && Sum(es) + e.body <= MAX_BYTES
    ensures ok ==> Describes(next, es + [e], prefix, entryBase, before) && AllFit(es + [e], prefix, entryBase)
    ensures bytes <= MAX_BYTES + 1 && (ok ==> bytes == next.total)
  {
    var rel, n := Rel(e.clean, prefix), 0;
    ok, n := Admit(e, rel, entryBase, v.count, v.total);
    next, bytes := v, v.total + n;
    if ok {
      AddDescribes(v, es, e, prefix, entryBase, before);
      next := Add(v, rel, n, entryBase);
    }
  }

  /** The loop over the archive. */
  method Scan(items: seq<Item>, prefix: string, entryBase: string, before: Dir)
    returns (ok: bool, v: Scanned, total: nat)
    ensures ok <==> Scannable(items, prefix, entryBase)
    ensures total <= MAX_BYTES + 1
    ensures ok ==> Describes(v, Scope(items, prefix), prefix, entryBase, before) && v.total == total
  {
    v := Scanned(before, {}, false, 0, 0);
    ghost var es: seq<Entry> := [];
    for i := 0 to |items|
      invariant es == Scope(items[..i], prefix)
      invariant forall j :: 0 <= j < i ==> items[j].Next?
      invariant AllFit(es, prefix, entryBase) && Describes(v, es, prefix, entryBase, before)
    {
      if items[i].ReadError? {
        return false, v, v.total;
      }
      var e := items[i].e;
      ScopeStep(items, i, prefix);
      if !InScope(e.clean, prefix) {
        continue;
      }
      var admitted, next, bytes := Visit(v, e, prefix, entryBase, before, es);
      if !admitted {
        RejectAt(items, i, prefix, entryBase, es, e);
        return false, v, bytes;
      }
      v := next;
      es := es + [e];
    }
    AllScanned(items, prefix, entryBase, es);
    return true, v, v.total;
  }

  /** `staged` is the directory afterwards, absent when it was removed. It is
      extracted exactly when the archive is acceptable; any failure removes it,
      and at most one byte beyond the cap is ever written. */
  method ExtractBundle(items: seq<Item>, bundleDir: string, entryBase: string, before: Dir)
    returns (ok: bool, staged: Option<Dir>, total: nat)
    ensures ok <==> Acceptable(items, Prefix(bundleDir), entryBase)
    ensures var prefix := Prefix(bundleDir);
            staged == if ok then Some(WriteAll(before, Scope(items, prefix), prefix, entryBase)) else None
    ensures total <= 64 * 1024 * 1024 + 1
    ensures ok ==> total == Sum(Scope(items, Prefix(bundleDir))) <= 64 * 1024 * 1024
  {
    var scanned, v, bytes := Scan(items, Prefix(bundleDir), entryBase, before);
    var need := {MANIFEST, TOOLSPEC};
    if !scanned || !v.sawEntry || !(need <= v.written) || !(v.written <= {entryBase} + need) {
      return false, None, bytes;
    }
    assert {entryBase} + need == {entryBase, MANIFEST, TOOLSPEC};
    return true, Some(v.d), bytes;
  }

  lemma AllScanned(items: seq<Item>, prefix: string, entryBase: string, es: seq<Entry>)
    requires es == Scope(items[..|items|], prefix) && forall j :: 0 <= j < |items| ==> items[j].Next?
    requires AllFit(es, prefix, entryBase) && |es| <= MAX_FILES && Sum(es) <= MAX_BYTES
    ensures es == Scope(items, prefix) && Scannable(items, prefix, entryBase)
  {
    assert items[..|items|] == items;
  }

  lemma RejectAt(items: seq<Item>, i: nat, prefix: string, entryBase: string, es: seq<Entry>, e: Entry)
    requires i < |items| && Scope(items[..i + 1], prefix) == es + [e]
    requires !Fits(e, prefix, entryBase) || |es| + 1 > MAX_FILES || Sum(es) + e.body > MAX_BYTES
    ensures !Scannable(items, prefix, entryBase)
  {
    var fs := es + [e];
    assert fs[..|es|] == es && fs[|es|] == e;
    PrefixRejects(items, i + 1, prefix, entryBase);
  }

  // ----- what an accepted bundle looks like -----

  lemma {:induction false} WriteAllShape(d: Dir, es: seq<Entry>, prefix: string, entryBase: string, name: string)
    ensures var t := WriteAll(d, es, prefix, entryBase);
            && (name in t <==> name in d || name in Names(es, prefix))
            && (name in t && name in d ==> t[name].exec == d[name].exec)
            && (name in t && name !in d ==> t[name].exec == (name == entryBase))
            && (name !in Names(es, prefix) && name in d ==> t[name] == d[name])
    decreases |es|
  {
    if es != [] {
      var n := |es| - 1;
      WriteAllShape(d, es[..n], prefix, entryBase, name);
      AppendedEntry(es[..n], es[n], prefix, entryBase, d);
      assert es == es[..n] + [es[n]];
    }
  }

  /** What is accepted, in plain numbers: a readable archive with at most eight entries
      in scope and 64 MiB in all, each a regular file without a slash in its name, written
      without error, and either the entrypoint or a plain file of at most 1 MiB; together
      exactly the three names. */
  lemma AcceptableExactly(items: seq<Item>, prefix: string, entryBase: string)
    ensures var es := Scope(items, prefix);
            Acceptable(items, prefix, entryBase) <==>
            && (forall i :: 0 <= i < |items| ==> items[i].Next?)
            && |es| <= 8 && Sum(es) <= 64 * 1024 * 1024
            && (forall i :: 0 <= i < |es| ==> Plain(es[i], Rel(es[i].clean, prefix), entryBase))
            && Names(es, prefix) == {entryBase, "manifest.yaml", "toolspec.yaml"}
  {
    var es := Scope(items, prefix);
    forall i | 0 <= i < |es|
      ensures Fits(es[i], prefix, entryBase) <==> Plain(es[i], Rel(es[i].clean, prefix), entryBase)
    {
      FitsIsPlain(es[i], prefix, entryBase);
    }
  }

  predicate Plain(e: Entry, rel: string, entryBase: string) {
    && e.kind == Regular && e.ioOk && '/' !in rel
    && (rel != entryBase ==> !e.exec && e.size <= 1024 * 1024)
  }

  lemma FitsIsPlain(e: Entry, prefix: string, entryBase: string)
    ensures Fits(e, prefix, entryBase) <==> Plain(e, Rel(e.clean, prefix), entryBase)
  {
  }

  /** A repeated name is truncated and written again: its last entry decides its size. */
  lemma {:induction false} LastEntryDecides(d: Dir, es: seq<Entry>, prefix: string, entryBase: string, j: nat)
    requires j < |es| && forall k :: j < k < |es| ==> Rel(es[k].clean, prefix) != Rel(es[j].clean, prefix)
    ensures var t, name := WriteAll(d, es, prefix, entryBase), Rel(es[j].clean, prefix);
            name in t && t[name].bytes == es[j].body
    decreases |es|
  {
    if j < |es| - 1 {
      LastEntryDecides(d, es[..|es| - 1], prefix, entryBase, j);
    }
  }

  /** A leading slash of the bundle directory does not matter: in scope are exactly the
      archive paths below it, named by what follows it. */
  lemma ScopeExactly(dir: string, clean: string)
    requires !("/" <= dir)
    ensures Prefix("/" + dir) == Prefix(dir)
    ensures InScope(clean, Prefix(dir)) <==> exists rel :: clean == dir + "/" + rel
    ensures forall rel :: clean == dir + "/" + rel ==> Rel(clean, Prefix(dir)) == rel
  {
    var p := dir + "/";
    assert ("/" + dir)[1..] == dir;
    if InScope(clean, p) {
      assert |clean + "/"| > |p|;
      assert (clean + "/")[..|p|] == clean[..|p|];
      assert clean == p + clean[|p|..];
    }
    forall rel | clean == p + rel ensures InScope(clean, p) && Rel(clean, p) == rel {
      assert clean[|p|..] == rel && p <= clean && p <= clean + "/";
    }
  }

  /** The entrypoint is executable and nothing else is. */
  ghost predicate OnlyEntryExec(d: Dir, entryBase: string) {
    forall name :: name in d ==> (d[name].exec <==> name == entryBase)
  }

  /** An accepted bundle adds exactly the three names, none of them a nested path.
      The directory then holds exactly those files if and only if no file that was
      there has another name, and only the entrypoint is executable if and only if
      that held of the files that were there; both hold of an empty directory. */
  lemma AcceptedBundle(items: seq<Item>, prefix: string, entryBase: string, before: Dir)
    requires Acceptable(items, prefix, entryBase)
    ensures var t, three := WriteAll(before, Scope(items, prefix), prefix, entryBase), {entryBase, MANIFEST, TOOLSPEC};
            && (t.Keys == three <==> before.Keys <= three)
            && (OnlyEntryExec(t, entryBase) <==> OnlyEntryExec(before, entryBase))
            && (forall name :: name in three ==> '/' !in name)
            && |Scope(items, prefix)| <= 8
            && forall e <- Scope(items, prefix) ::
                 e.kind == Regular && (Rel(e.clean, prefix) == entryBase || (!e.exec && e.size <= 1024 * 1024))
  {
    var es := Scope(items, prefix);
    var t := WriteAll(before, es, prefix, entryBase);
    forall name ensures name in t <==> name in before || name in Names(es, prefix) {
      WriteAllShape(before, es, prefix, entryBase, name);
    }
    assert t.Keys == before.Keys + Names(es, prefix);
    forall name | name in t
      ensures t[name].exec == if name in before then before[name].exec else name == entryBase
    {
      WriteAllShape(before, es, prefix, entryBase, name);
    }
    forall name | name in Names(es, prefix) ensures '/' !in name {
      var i :| 0 <= i < |es| && Rel(es[i].clean, prefix) == name;
      assert Fits(es[i], prefix, entryBase);
    }
  }
}
