/** Whole runs of installs and uninstalls, each cut short at any write: which
    servers the spawn gate lets through, and which placeholders survive. */
module InstallRuns {
  import opened Common
  import opened Installer

  /** `done` store writes of `op` are performed, then it returns or crashes. */
  datatype Exec = Exec(op: Op, done: nat)

  ghost predicate Good(xs: seq<Exec>) {
    forall i :: 0 <= i < |xs| ==> WellFormed(xs[i].op)
  }

  function Executed(db: Db, x: Exec): seq<Write>
    requires WellFormed(x.op)
  {
    var ws := Writes(db, x.op);
    if x.done < |ws| then ws[..x.done] else ws
  }

  function After(db: Db, x: Exec): Db
    requires WellFormed(x.op)
  {
    ApplyAll(db, Executed(db, x))
  }

  /** The tables after a run; every point between two writes of any operation
      is the end of such a run. */
  function End(db: Db, xs: seq<Exec>): Db
    requires Good(xs)
    decreases |xs|
  {
    if xs == [] then db else After(End(db, xs[..|xs| - 1]), xs[|xs| - 1])
  }

  lemma Unroll(db: Db, ws: seq<Write>)
    requires |ws| <= 3
    ensures ApplyAll(db, ws) ==
      if |ws| == 0 then db
      else if |ws| == 1 then Apply(db, ws[0])
      else if |ws| == 2 then Apply(Apply(db, ws[0]), ws[1])
      else Apply(Apply(Apply(db, ws[0]), ws[1]), ws[2])
  {
    if |ws| >= 2 {
      ApplyTwo(db, ws);
    }
  }

  function Consented(db: Db, x: Exec, name: string): string
    requires x.op.Install? && WellFormed(x.op)
  {
    if RecordConsent(name, x.op.m.hash) in Executed(db, x) then x.op.m.hash
    else if name in db.manifests then db.manifests[name].consented
    else ""
  }

  function Target(op: Op): string { if op.Install? then op.m.name else op.name }

  ghost predicate InstallEffect(db: Db, x: Exec, name: string)
    requires x.op.Install? && WellFormed(x.op)
  {
    var ws, t, rec := Executed(db, x), After(db, x), NewRecord(db, x.op.m, x.op.minted);
    && (if PutManifest(name, rec) in ws
        then name in t.manifests && t.manifests[name].(consented := "") == rec
        else Prior(t, name) == Prior(db, name))
    && (name in t.manifests ==> t.manifests[name].consented == Consented(db, x, name))
    && (RecordConsent(name, x.op.m.hash) in ws ==> PutManifest(name, rec) in ws)
    && (name in t.servers ==> name in db.servers || name in t.manifests)
    && (EnsureServer(name, ServerRow(x.op.m)) in ws ==> name in t.servers && t.servers[name] == ServerRow(x.op.m))
    && (forall w :: w in ws ==> !w.DeleteManifest?)
  }

  ghost predicate UninstallEffect(db: Db, x: Exec, name: string)
    requires x.op.Uninstall?
  {
    var ws, t := Executed(db, x), After(db, x);
    && (if DeleteManifest(name) in ws then name !in t.manifests && name !in t.servers
        else Prior(t, name) == Prior(db, name))
    && (name in t.servers ==> name in db.servers)
    && (forall w :: w in ws ==> w.DeleteServer? || w.DeleteManifest?)
  }

  /** What one cut-short operation does to the row of `name`, and to no other row. */
  lemma ExecEffect(db: Db, x: Exec, name: string)
    requires WellFormed(x.op)
    ensures name != Target(x.op) ==>
              var t := After(db, x); Prior(t, name) == Prior(db, name) && (name in t.servers <==> name in db.servers)
    ensures x.op.Install? && name == Target(x.op) ==> InstallEffect(db, x, name)
    ensures x.op.Uninstall? && name == Target(x.op) ==> UninstallEffect(db, x, name)
  {
    if name != Target(x.op) {
      OtherRows(db, Executed(db, x), Target(x.op), name);
    } else if x.op.Install? {
      InstallExecuted(db, x);
    } else {
      Unroll(db, Executed(db, x));
    }
  }

  lemma {:induction false} OtherRows(db: Db, ws: seq<Write>, target: string, name: string)
    requires name != target && forall i :: 0 <= i < |ws| ==> ws[i].name == target
    ensures var t := ApplyAll(db, ws); Prior(t, name) == Prior(db, name) && (name in t.servers <==> name in db.servers)
    decreases |ws|
  {
    if ws != [] {
      OtherRows(Apply(db, ws[0]), ws[1..], target, name);
    }
  }

  lemma InstallExecuted(db: Db, x: Exec)
    requires WellFormed(x.op) && x.op.Install?
    ensures InstallEffect(db, x, x.op.m.name)
  {
    var p := Prior(db, x.op.m.name);
    if p.Some? && p.value.version == x.op.m.version && p.value.hash == x.op.m.hash && x.op.onDisk {
      RefreshExecuted(db, x);
    } else {
      StagedExecuted(db, x);
    }
  }

  lemma RefreshExecuted(db: Db, x: Exec)
    requires WellFormed(x.op) && x.op.Install? && Writes(db, x.op)[0].EnsureServer?
    ensures InstallEffect(db, x, x.op.m.name)
  {
    Unroll(db, Executed(db, x));
  }

  lemma StagedExecuted(db: Db, x: Exec)
    requires WellFormed(x.op) && x.op.Install? && Writes(db, x.op)[0].PutManifest?
    ensures InstallEffect(db, x, x.op.m.name)
  {
    Unroll(db, Executed(db, x));
  }

  /** The last non-empty prior placeholder of an id, or the minted one if there is none. */
  ghost predicate Carried(prior: seq<Injection>, id: string, minted: string, p: string) {
    || (exists j :: 0 <= j < |prior| && LastOf(prior, id, j) && prior[j].placeholder == p)
    || (p == minted && forall j :: 0 <= j < |prior| ==> !LastOf(prior, id, j))
  }

  ghost predicate LastOf(prior: seq<Injection>, id: string, j: nat) {
    && j < |prior| && prior[j].cred.id == id && prior[j].placeholder != ""
    && forall k :: j < k < |prior| && prior[k].cred.id == id ==> prior[k].placeholder == ""
  }

  lemma {:induction false} PriorExactly(prior: seq<Injection>, id: string)
    ensures PriorPlaceholder(prior, id).Some? ==>
      exists j :: 0 <= j < |prior| && LastOf(prior, id, j) && PriorPlaceholder(prior, id).value == prior[j].placeholder
    ensures PriorPlaceholder(prior, id).None? ==>
      forall j :: 0 <= j < |prior| && prior[j].cred.id == id ==> prior[j].placeholder == ""
    decreases |prior|
  {
    if prior != [] {
      var n := |prior| - 1;
      PriorExactly(prior[..n], id);
      if prior[n].cred.id == id && prior[n].placeholder != "" {
        assert LastOf(prior, id, n);
      } else if PriorPlaceholder(prior[..n], id).Some? {
        var j :| 0 <= j < n && LastOf(prior[..n], id, j) && PriorPlaceholder(prior, id).value == prior[j].placeholder;
        assert LastOf(prior, id, j);
      }
    }
  }

  lemma CarriedPlaceholder(prior: seq<Injection>, id: string, minted: string)
    ensures var p := PriorPlaceholder(prior, id); Carried(prior, id, minted, if p.Some? then p.value else minted)
  {
    PriorExactly(prior, id);
  }

  /** The manifests row a completed install of `m` leaves over the row it found. */
  ghost predicate RowOf(r: Record, m: Manifest, found: Option<Record>, auto: bool, minted: seq<string>)
    requires |minted| == |m.creds|
  {
    && r.version == m.version && r.hash == m.hash && r.hosts == m.hosts && r.tools == m.tools
    && |r.injections| == |m.creds|
    && (forall i :: 0 <= i < |m.creds| ==> r.injections[i].cred == m.creds[i])
    && (forall i :: 0 <= i < |m.creds| ==>
          var prior := if found.Some? then found.value.injections else [];
          Carried(prior, m.creds[i].id, minted[i], r.injections[i].placeholder))
    && r.consented == if !auto && found.Some? && found.value.consented != "" then found.value.consented else m.hash
  }

  /** A completed install leaves, field by field, the manifest's row and the server row:
      the entrypoint and the mounted directory for a toolpack, the staged binary and no
      directory otherwise. */
  lemma InstalledRows(db: Db, x: Exec)
    requires WellFormed(x.op) && x.op.Install? && x.done >= 3
    ensures var m, t := x.op.m, After(db, x);
            && m.name in t.manifests && m.name in t.servers
            && RowOf(t.manifests[m.name], m, Prior(db, m.name), x.op.auto, x.op.minted)
            && var dir := "servers/" + m.name + "@" + m.version;
               && (m.toolpack ==> t.servers[m.name] == Server(m.entrypoint, dir))
               && (!m.toolpack ==> t.servers[m.name] == Server(dir + "/server", ""))
  {
    var m, p := x.op.m, Prior(db, x.op.m.name);
    var rec := NewRecord(db, m, x.op.minted);
    ExecEffect(db, x, m.name);
    assert PutManifest(m.name, rec) in Executed(db, x) && EnsureServer(m.name, ServerRow(m)) in Executed(db, x);
    var prior := if p.Some? then p.value.injections else [];
    forall i | 0 <= i < |m.creds|
      ensures Carried(prior, m.creds[i].id, x.op.minted[i], rec.injections[i].placeholder)
    {
      CarriedPlaceholder(prior, m.creds[i].id, x.op.minted[i]);
    }
    ConsentedExactly(db, x);
  }

  /** A completed uninstall leaves neither row, and every row of other servers. */
  lemma UninstalledRows(db: Db, x: Exec)
    requires x.op.Uninstall? && x.done >= 2
    ensures After(db, x) == Db(db.servers - {x.op.name}, db.manifests - {x.op.name})
  {
    Unroll(db, Executed(db, x));
  }

  lemma ConsentedExactly(db: Db, x: Exec)
    requires WellFormed(x.op) && x.op.Install? && x.done >= 3
    ensures var m, p := x.op.m, Prior(db, x.op.m.name);
            Consented(db, x, m.name) ==
            if !x.op.auto && p.Some? && p.value.consented != "" then p.value.consented else m.hash
  {
    var consent := RecordConsent(x.op.m.name, x.op.m.hash);
    assert consent in Executed(db, x) <==> x.op.auto || FirstConsent(db, x.op.m.name);
  }

  // ----- no server without a manifest -----

  /** Servers the no-manifest path would expose in full. */
  ghost function Unguarded(db: Db): set<string> { db.servers.Keys - db.manifests.Keys }

  /** At every point of every run, crashes included, an unguarded server is one
      that was already unguarded at the start; with no legacy rows there is none. */
  lemma {:induction false} NoNewUnguarded(db: Db, xs: seq<Exec>)
    requires Good(xs)
    ensures Unguarded(End(db, xs)) <= Unguarded(db)
    decreases |xs|
  {
    if xs != [] {
      var ys, x := xs[..|xs| - 1], xs[|xs| - 1];
      var u, t := End(db, ys), End(db, xs);
      NoNewUnguarded(db, ys);
      forall name | name in Unguarded(t) ensures name in Unguarded(u) {
        ExecEffect(u, x, name);
      }
    }
  }

  // ----- the spawn gate -----

  /** The Spawn closure of cmd/gateway, with the default SpawnEgressBackend
      applies to an empty sentinel: None is a refusal. */
  function SpawnSentinel(db: Db, name: string): Option<string> {
    if name !in db.manifests then Some("PLACEHOLDER")
    else
      var rec := db.manifests[name];
      if rec.NeedsReconsent() then None
      else if |rec.injections| > 0 && rec.injections[0].placeholder != "" then Some(rec.injections[0].placeholder)
      else Some("PLACEHOLDER")
  }

  predicate GatePasses(db: Db, name: string) {
    name in db.manifests && SpawnSentinel(db, name).Some?
  }

  /** The spawn closure refuses exactly a manifest whose hash is not the consented one;
      otherwise the sandbox gets the first credential's placeholder, or the default
      sentinel if there is none. */
  lemma SentinelExactly(db: Db, name: string)
    ensures SpawnSentinel(db, name) == None <==>
            name in db.manifests && db.manifests[name].hash != db.manifests[name].consented
    ensures SpawnSentinel(db, name).Some? ==>
              if name in db.manifests && |db.manifests[name].injections| > 0
              then var p := db.manifests[name].injections[0].placeholder;
                   SpawnSentinel(db, name).value == if p == "" then "PLACEHOLDER" else p
              else SpawnSentinel(db, name).value == "PLACEHOLDER"
  {
  }

  /** Step `i` of the run is an install of exactly this server at this hash that
      got as far as recording consent, and was entitled to: a boot install, or
      one that found no earlier consent. */
  ghost predicate Consents(db: Db, xs: seq<Exec>, i: nat, name: string, hash: string)
    requires Good(xs)
  {
    && i < |xs| && xs[i].op.Install?
    && xs[i].op.m.name == name && xs[i].op.m.hash == hash
    && RecordConsent(name, hash) in Executed(End(db, xs[..i]), xs[i])
    && (xs[i].op.auto || FirstConsent(End(db, xs[..i]), name))
  }

  /** No step after `i` removed the manifest row of `name`. */
  ghost predicate KeptSince(db: Db, xs: seq<Exec>, i: nat, name: string)
    requires Good(xs)
  {
    forall j: nat :: i < j < |xs| ==> !RemovesRow(db, xs, j, name)
  }

  ghost predicate RemovesRow(db: Db, xs: seq<Exec>, j: nat, name: string)
    requires Good(xs)
  {
    j < |xs| && DeleteManifest(name) in Executed(End(db, xs[..j]), xs[j])
  }

  ghost predicate NoConsents(db: Db) {
    forall name :: name in db.manifests ==> db.manifests[name].consented == "" && db.manifests[name].hash != ""
  }

  /** A consent present after one operation was given by it or was there before. */
  lemma ConsentStep(u: Db, x: Exec, name: string)
    requires WellFormed(x.op)
    requires name in After(u, x).manifests && After(u, x).manifests[name].consented != ""
    ensures var c := After(u, x).manifests[name].consented;
            || (x.op.Install? && x.op.m.name == name && x.op.m.hash == c
                && RecordConsent(name, c) in Executed(u, x) && (x.op.auto || FirstConsent(u, name)))
            || (name in u.manifests && u.manifests[name].consented == c && DeleteManifest(name) !in Executed(u, x))
  {
    ExecEffect(u, x, name);
    if x.op.Install? && RecordConsent(name, x.op.m.hash) in Executed(u, x) {
      assert RecordConsent(name, x.op.m.hash) in Writes(u, x.op);
    }
  }

  lemma LongerRun(db: Db, xs: seq<Exec>, i: nat, name: string, hash: string)
    requires Good(xs) && xs != []
    requires var ys := xs[..|xs| - 1]; Consents(db, ys, i, name, hash) && KeptSince(db, ys, i, name)
    requires DeleteManifest(name) !in Executed(End(db, xs[..|xs| - 1]), xs[|xs| - 1])
    ensures Consents(db, xs, i, name, hash) && KeptSince(db, xs, i, name)
  {
    var n := |xs| - 1;
    var ys := xs[..n];
    assert ys[..i] == xs[..i];
    forall j: nat | i < j < |xs| ensures !RemovesRow(db, xs, j, name) {
      if j < n {
        SamePrefix(db, xs, j, name);
      } else {
        assert j == n;
      }
    }
  }

  lemma SamePrefix(db: Db, xs: seq<Exec>, j: nat, name: string)
    requires Good(xs) && j < |xs| - 1
    ensures RemovesRow(db, xs, j, name) == RemovesRow(db, xs[..|xs| - 1], j, name)
  {
    var ys := xs[..|xs| - 1];
    assert ys[..j] == xs[..j] && ys[j] == xs[j];
  }

  /** A recorded consent always goes back to a step entitled to give it. */
  lemma {:induction false} ConsentHasAGiver(db: Db, xs: seq<Exec>, name: string) returns (i: nat)
    requires Good(xs) && NoConsents(db)
    requires var t := End(db, xs); name in t.manifests && t.manifests[name].consented != ""
    ensures Consents(db, xs, i, name, End(db, xs).manifests[name].consented) && KeptSince(db, xs, i, name)
    decreases |xs|
  {
    if xs == [] {
      assert false;
    } else {
      var n := |xs| - 1;
      var u, c := End(db, xs[..n]), End(db, xs).manifests[name].consented;
      ConsentStep(u, xs[n], name);
      if name in u.manifests && u.manifests[name].consented == c && DeleteManifest(name) !in Executed(u, xs[n]) {
        i := ConsentHasAGiver(db, xs[..n], name);
        LongerRun(db, xs, i, name, c);
      } else {
        i := n;
        assert KeptSince(db, xs, i, name);
      }
    }
  }

  lemma {:induction false} HashesNonEmpty(db: Db, xs: seq<Exec>, name: string)
    requires Good(xs) && NoConsents(db) && name in End(db, xs).manifests
    ensures End(db, xs).manifests[name].hash != ""
    decreases |xs|
  {
    if xs != [] {
      var ys, x := xs[..|xs| - 1], xs[|xs| - 1];
      ExecEffect(End(db, ys), x, name);
      if name in End(db, ys).manifests {
        HashesNonEmpty(db, ys, name);
      }
    }
  }

  /** Over every run of API installs, boot installs, uninstalls and crashes, a
      manifest-backed server passes the spawn gate only at a hash consented by a
      boot install or by an install that found no earlier consent, and that
      consent is still the one of the present manifest row. */
  lemma GateNeedsConsent(db: Db, xs: seq<Exec>, name: string)
    requires Good(xs) && NoConsents(db) && GatePasses(End(db, xs), name)
    ensures exists i: nat :: Consents(db, xs, i, name, End(db, xs).manifests[name].hash) && KeptSince(db, xs, i, name)
  {
    HashesNonEmpty(db, xs, name);
    var i := ConsentHasAGiver(db, xs, name);
  }

  /** A completed install leaves the server spawnable exactly when it was a boot
      install, found no earlier consent, or returned to the consented hash. */
  lemma InstallGate(db: Db, x: Exec)
    requires WellFormed(x.op) && x.op.Install? && x.done >= 3
    ensures GatePasses(After(db, x), x.op.m.name) <==>
      x.op.auto || FirstConsent(db, x.op.m.name) || x.op.m.hash == db.manifests[x.op.m.name].consented
  {
    Unroll(db, Executed(db, x));
  }

  /** What may lift a refusal: a boot install recording consent, the removal of
      the row, or a manifest at the consented hash. */
  ghost predicate Lifts(db: Db, x: Exec, name: string, consented: string)
    requires WellFormed(x.op)
  {
    exists w :: w in Executed(db, x) && w.name == name &&
      (w.DeleteManifest? || (w.RecordConsent? && x.op.Install? && x.op.auto)
       || (w.PutManifest? && w.rec.hash == consented))
  }

  /** Once an upgrade to another hash is refused, it stays refused, at the same
      consented hash, through any further operations that do not lift it. */
  lemma {:induction false} RefusalSticks(db: Db, xs: seq<Exec>, name: string)
    requires Good(xs) && name in db.manifests
    requires db.manifests[name].consented != "" && db.manifests[name].NeedsReconsent()
    requires forall i :: 0 <= i < |xs| ==> !Lifts(End(db, xs[..i]), xs[i], name, db.manifests[name].consented)
    ensures var t := End(db, xs);
            && name in t.manifests && t.manifests[name].consented == db.manifests[name].consented
            && SpawnSentinel(t, name) == None
    decreases |xs|
  {
    if xs != [] {
      var n := |xs| - 1;
      var ys, x := xs[..n], xs[n];
      var u, c := End(db, ys), db.manifests[name].consented;
      assert forall j :: 0 <= j <= n ==> ys[..j] == xs[..j];
      RefusalSticks(db, ys, name);
      RefusalStep(u, x, name, c);
    }
  }

  lemma RefusalStep(u: Db, x: Exec, name: string, c: string)
    requires WellFormed(x.op) && !Lifts(u, x, name, c) && c != ""
    requires name in u.manifests && u.manifests[name].consented == c && u.manifests[name].NeedsReconsent()
    ensures var t := After(u, x);
            name in t.manifests && t.manifests[name].consented == c && t.manifests[name].NeedsReconsent()
  {
    ExecEffect(u, x, name);
    if x.op.Install? && x.op.m.name == name {
      NoLiftNoConsent(u, x, name, c);
    } else if x.op.Uninstall? && x.op.name == name {
      assert DeleteManifest(name) !in Executed(u, x);
    }
  }

  lemma NoLiftNoConsent(u: Db, x: Exec, name: string, c: string)
    requires WellFormed(x.op) && x.op.Install? && x.op.m.name == name && !Lifts(u, x, name, c)
    requires name in u.manifests && u.manifests[name].consented == c != ""
    ensures RecordConsent(name, x.op.m.hash) !in Executed(u, x)
    ensures PutManifest(name, NewRecord(u, x.op.m, x.op.minted)) in Executed(u, x) ==> x.op.m.hash != c
  {
    var ws := Writes(u, x.op);
    assert forall w :: w in Executed(u, x) ==> w in ws;
  }

  // ----- placeholders -----

  ghost predicate UniqueIds(inj: seq<Injection>) {
    forall i, j :: 0 <= i < j < |inj| ==> inj[i].cred.id != inj[j].cred.id
  }

  /** `p` is the sentinel of credential `id` throughout the row. */
  ghost predicate Pinned(inj: seq<Injection>, id: string, p: string) {
    && (forall i :: 0 <= i < |inj| && inj[i].cred.id == id ==> inj[i].placeholder == p)
    && exists i :: 0 <= i < |inj| && inj[i].cred.id == id
  }

  lemma {:induction false} PinnedPrior(inj: seq<Injection>, id: string, p: string)
    requires Pinned(inj, id, p) && p != ""
    ensures PriorPlaceholder(inj, id) == Some(p)
  {
    var n := |inj| - 1;
    if inj[n].cred.id != id {
      var i :| 0 <= i < |inj| && inj[i].cred.id == id;
      assert inj[..n][i] == inj[i];
      PinnedPrior(inj[..n], id, p);
    }
  }

  ghost predicate Lists(m: Manifest, id: string) {
    exists i :: 0 <= i < |m.creds| && m.creds[i].id == id
  }

  lemma RebuildKeepsPin(creds: seq<Credential>, prior: seq<Injection>, minted: seq<string>, id: string, p: string)
    requires |minted| == |creds| && Pinned(prior, id, p) && p != ""
    requires exists i :: 0 <= i < |creds| && creds[i].id == id
    ensures Pinned(BuildInjections(creds, prior, minted), id, p)
  {
    PinnedPrior(prior, id, p);
    var out := BuildInjections(creds, prior, minted);
    var i :| 0 <= i < |creds| && creds[i].id == id;
    assert out[i].cred.id == id;
  }

  /** Across any run of reinstalls and upgrades that never removes the row, a
      credential id that every installed manifest keeps, keeps its placeholder. */
  lemma {:induction false} PlaceholderSurvives(db: Db, xs: seq<Exec>, name: string, id: string, p: string)
    requires Good(xs) && name in db.manifests && p != "" && Pinned(db.manifests[name].injections, id, p)
    requires forall j: nat :: j < |xs| ==> !RemovesRow(db, xs, j, name)
    requires forall j :: 0 <= j < |xs| && xs[j].op.Install? && xs[j].op.m.name == name ==> Lists(xs[j].op.m, id)
    ensures name in End(db, xs).manifests && Pinned(End(db, xs).manifests[name].injections, id, p)
    decreases |xs|
  {
    if xs != [] {
      var n := |xs| - 1;
      var ys, x := xs[..n], xs[n];
      var u := End(db, ys);
      forall j: nat | j < n ensures !RemovesRow(db, ys, j, name) {
        SamePrefix(db, xs, j, name);
      }
      PlaceholderSurvives(db, ys, name, id, p);
      assert !RemovesRow(db, xs, n, name);
      ExecEffect(u, x, name);
      if x.op.Install? && x.op.m.name == name {
        RebuildKeepsPin(x.op.m.creds, u.manifests[name].injections, x.op.minted, id, p);
      }
    }
  }

  lemma UniqueMeansPinned(inj: seq<Injection>, i: nat)
    requires UniqueIds(inj) && i < |inj|
    ensures Pinned(inj, inj[i].cred.id, inj[i].placeholder)
  {
  }

  /** The sentinel handed to a sandbox at spawn is still the first placeholder
      of the manifest row later, as long as the first credential keeps its id. */
  lemma SpawnSentinelStaysCurrent(db: Db, xs: seq<Exec>, name: string)
    requires Good(xs) && GatePasses(db, name)
    requires var inj := db.manifests[name].injections; |inj| > 0 && UniqueIds(inj) && inj[0].placeholder != ""
    requires forall j: nat :: j < |xs| ==> !RemovesRow(db, xs, j, name)
    requires forall j :: 0 <= j < |xs| && xs[j].op.Install? && xs[j].op.m.name == name ==>
      Lists(xs[j].op.m, db.manifests[name].injections[0].cred.id)
    ensures name in End(db, xs).manifests
    ensures var inj := End(db, xs).manifests[name].injections;
            |inj| > 0 && inj[0].cred.id == db.manifests[name].injections[0].cred.id ==>
              SpawnSentinel(db, name) == Some(inj[0].placeholder)
  {
    var inj := db.manifests[name].injections;
    UniqueMeansPinned(inj, 0);
    PlaceholderSurvives(db, xs, name, inj[0].cred.id, inj[0].placeholder);
  }

  lemma {:induction false} PriorFound(inj: seq<Injection>, i: nat)
    requires i < |inj| && inj[i].placeholder != ""
    ensures PriorPlaceholder(inj, inj[i].cred.id).Some?
  {
    if i < |inj| - 1 {
      PriorFound(inj[..|inj| - 1], i);
    }
  }

  /** Unique ids are needed: reinstalling the same credentials over distinct
      placeholders keeps every one of them exactly when no id repeats. */
  lemma ReinstallKeepsAllIffUnique(prior: seq<Injection>, minted: seq<string>)
    requires |minted| == |prior|
    requires forall i, j :: 0 <= i < j < |prior| ==> prior[i].placeholder != prior[j].placeholder
    requires forall i :: 0 <= i < |prior| ==> prior[i].placeholder != ""
    ensures var creds := seq(|prior|, i requires 0 <= i < |prior| => prior[i].cred);
            BuildInjections(creds, prior, minted) == prior <==> UniqueIds(prior)
  {
    var creds := seq(|prior|, i requires 0 <= i < |prior| => prior[i].cred);
    var out := BuildInjections(creds, prior, minted);
    if UniqueIds(prior) {
      forall i | 0 <= i < |prior| ensures out[i] == prior[i] {
        UniqueMeansPinned(prior, i);
        PinnedPrior(prior, prior[i].cred.id, prior[i].placeholder);
      }
    } else {
      var i, j :| 0 <= i < j < |prior| && prior[i].cred.id == prior[j].cred.id;
      PriorFound(prior, i);
      assert out[i].placeholder == out[j].placeholder;
    }
  }
}
