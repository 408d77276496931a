/** Installs, upgrades, uninstalls and consent: internal/registry/installer.go
    over the servers and manifests tables (internal/store/sqlite.go,
    internal/store/manifests.go), and the spawn gate of cmd/gateway/main.go.

    An operation reads the tables once and then performs a fixed list of
    writes; a crash or a store error leaves any prefix of that list done. */
module Installer {
  import opened Common

  datatype Credential = Credential(id: string, kind: string, provider: string, vendor: string,
                                   header: string, format: string)

  /** A resolved index manifest; `hash` is its RuntimeHash, `toolpack` says whether
      the image is a toolpack bundle. */
  datatype Manifest = Manifest(name: string, version: string, hash: string, hosts: seq<string>,
                               creds: seq<Credential>, tools: seq<string>, entrypoint: string, toolpack: bool)

  datatype Injection = Injection(cred: Credential, placeholder: string)

  /** A manifests row. `consented` is "" until a consent is recorded. */
  datatype Record = Record(version: string, hash: string, hosts: seq<string>,
                           injections: seq<Injection>, tools: seq<string>, consented: string)
  {
    predicate NeedsReconsent() { hash != consented }
  }

  /** A servers row; `bundleDir` is empty for a single-file server. */
  datatype Server = Server(binary: string, bundleDir: string)

  datatype Db = Db(servers: map<string, Server>, manifests: map<string, Record>)

  datatype Write =
    | PutManifest(name: string, rec: Record)
    | EnsureServer(name: string, row: Server)
    | RecordConsent(name: string, hash: string)
    | DeleteServer(name: string)
    | DeleteManifest(name: string)

  /** PutManifest keeps the consent of an existing row; RecordConsent on a missing row changes nothing. */
  function Apply(db: Db, w: Write): Db {
    match w
    case PutManifest(n, rec) =>
      var c := if n in db.manifests then db.manifests[n].consented else "";
      db.(manifests := db.manifests[n := rec.(consented := c)])
    case EnsureServer(n, row) => db.(servers := db.servers[n := row])
    case RecordConsent(n, h) =>
      if n in db.manifests then db.(manifests := db.manifests[n := db.manifests[n].(consented := h)]) else db
    case DeleteServer(n) => db.(servers := db.servers - {n})
    case DeleteManifest(n) => db.(manifests := db.manifests - {n})
  }

  function ApplyAll(db: Db, ws: seq<Write>): Db
    decreases |ws|
  {
    if ws == [] then db else ApplyAll(Apply(db, ws[0]), ws[1..])
  }

  // ----- injections -----

  /** The placeholder recorded for a credential id: the last non-empty one. */
  function PriorPlaceholder(prior: seq<Injection>, id: string): Option<string> {
    if prior == [] then None
    else
      var last := prior[|prior| - 1];
      if last.cred.id == id && last.placeholder != "" then Some(last.placeholder)
      else PriorPlaceholder(prior[..|prior| - 1], id)
  }

  /** `minted[i]` is the sentinel newPlaceholder would return for credential i. */
  function Inject(c: Credential, prior: seq<Injection>, minted: string): Injection {
    var p := PriorPlaceholder(prior, c.id);
    Injection(c, if p.Some? then p.value else minted)
  }

  function BuildInjections(creds: seq<Credential>, prior: seq<Injection>, minted: seq<string>): seq<Injection>
    requires |minted| == |creds|
  {
    seq(|creds|, i requires 0 <= i < |creds| => Inject(creds[i], prior, minted[i]))
  }

  /** The two loops of buildInjections: a map from id to the last non-empty
      prior placeholder, then one injection per credential. */
  method BuildInjectionsLoop(creds: seq<Credential>, prior: seq<Injection>, minted: seq<string>)
    returns (out: seq<Injection>)
    requires |minted| == |creds|
    ensures out == BuildInjections(creds, prior, minted)
  {
    var priorPH: map<string, string> := map[];
    for i := 0 to |prior|
      invariant forall id :: id in priorPH <==> PriorPlaceholder(prior[..i], id).Some?
      invariant forall id :: id in priorPH ==> PriorPlaceholder(prior[..i], id) == Some(priorPH[id])
    {
      assert prior[..i + 1][..i] == prior[..i];
      if prior[i].placeholder != "" {
        priorPH := priorPH[prior[i].cred.id := prior[i].placeholder];
      }
    }
    assert prior[..|prior|] == prior;
    out := [];
    for i := 0 to |creds|
      invariant |out| == i
      invariant forall j :: 0 <= j < i ==> out[j] == Inject(creds[j], prior, minted[j])
    {
      var ph := if creds[i].id in priorPH then priorPH[creds[i].id] else minted[i];
      out := out + [Injection(creds[i], ph)];
    }
  }

  // ----- operations -----

  /** `onDisk` is the outcome of os.Stat on the file `server` of the artifact directory,
      whatever the entrypoint is called. */
  datatype Op =
    | Install(m: Manifest, auto: bool, minted: seq<string>, onDisk: bool)
    | Uninstall(name: string)

  ghost predicate WellFormed(op: Op) {
    op.Install? ==>
      op.m.hash != "" && |op.minted| == |op.m.creds| && forall i :: 0 <= i < |op.minted| ==> op.minted[i] != ""
  }

  function Prior(db: Db, name: string): Option<Record> {
    if name in db.manifests then Some(db.manifests[name]) else None
  }

  predicate FirstConsent(db: Db, name: string) {
    name in db.manifests ==> db.manifests[name].consented == ""
  }

  function NewRecord(db: Db, m: Manifest, minted: seq<string>): Record
    requires |minted| == |m.creds|
  {
    var p := Prior(db, m.name);
    var injections := BuildInjections(m.creds, if p.Some? then p.value.injections else [], minted);
    Record(m.version, m.hash, m.hosts, injections, m.tools, "")
  }

  /** The artifact directory, below the data directory. */
  function StageDir(m: Manifest): string { "servers/" + m.name + "@" + m.version }

  /** The row of ensureRow: the in-image entrypoint and the mounted directory for a
      bundle, the staged binary otherwise. */
  function ServerRow(m: Manifest): Server {
    if m.toolpack then Server(m.entrypoint, StageDir(m)) else Server(StageDir(m) + "/server", "")
  }

  function Writes(db: Db, op: Op): seq<Write>
    requires WellFormed(op)
  {
    match op
    case Install(m, auto, minted, onDisk) =>
      var put := PutManifest(m.name, NewRecord(db, m, minted));
      var row := EnsureServer(m.name, ServerRow(m));
      var consent := if auto || FirstConsent(db, m.name) then [RecordConsent(m.name, m.hash)] else [];
      var p := Prior(db, m.name);
      if p.Some? && p.value.version == m.version && p.value.hash == m.hash && onDisk
      then [row, put] + consent
      else [put, row] + consent
    case Uninstall(name) => [DeleteServer(name), DeleteManifest(name)]
  }

  /** The tables as the object the installer calls. */
  class Store {
    var servers: map<string, Server>
    var manifests: map<string, Record>

    ghost function View(): Db
      reads this
    {
      Db(servers, manifests)
    }

    method PutManifest(name: string, rec: Record)
      modifies this
      ensures View() == Apply(old(View()), Write.PutManifest(name, rec))
    {
      if name in manifests {
        manifests := manifests[name := rec.(consented := manifests[name].consented)];
      } else {
        manifests := manifests[name := rec.(consented := "")];
      }
    }

    method EnsureServer(name: string, row: Server)
      modifies this
      ensures View() == Apply(old(View()), Write.EnsureServer(name, row))
    {
      servers := servers[name := row];
    }

    method RecordConsent(name: string, hash: string) returns (found: bool)
      modifies this
      ensures found <==> name in old(manifests)
      ensures View() == Apply(old(View()), Write.RecordConsent(name, hash))
    {
      found := name in manifests;
      if found {
        manifests := manifests[name := manifests[name].(consented := hash)];
      }
    }

    method DeleteServer(name: string)
      modifies this
      ensures View() == Apply(old(View()), Write.DeleteServer(name))
    {
      servers := servers - {name};
    }

    method DeleteManifest(name: string)
      modifies this
      ensures View() == Apply(old(View()), Write.DeleteManifest(name))
    {
      manifests := manifests - {name};
    }

    /** An install that is not cut short performs exactly its write list. */
    method Install(m: Manifest, auto: bool, minted: seq<string>, onDisk: bool)
      requires WellFormed(Op.Install(m, auto, minted, onDisk))
      modifies this
      ensures View() == ApplyAll(old(View()), Writes(old(View()), Op.Install(m, auto, minted, onDisk)))
    {
      ghost var was := View();
      ghost var ws := Writes(was, Op.Install(m, auto, minted, onDisk));
      var hadPrior := m.name in manifests;
      var first := !hadPrior || manifests[m.name].consented == "";
      var priorInjections := if hadPrior then manifests[m.name].injections else [];
      var injections := BuildInjectionsLoop(m.creds, priorInjections, minted);
      var rec := Record(m.version, m.hash, m.hosts, injections, m.tools, "");
      if hadPrior && manifests[m.name].version == m.version && manifests[m.name].hash == m.hash && onDisk {
        EnsureServer(m.name, ServerRow(m));
        PutManifest(m.name, rec);
      } else {
        PutManifest(m.name, rec);
        EnsureServer(m.name, ServerRow(m));
      }
      assert ws == ws[..2] + ws[2..];
      ApplyTwo(was, ws);
      if auto || first {
        var _ := RecordConsent(m.name, m.hash);
        assert ws[2..] == [Write.RecordConsent(m.name, m.hash)];
      }
    }

    method Uninstall(name: string)
      modifies this
      ensures View() == ApplyAll(old(View()), Writes(old(View()), Op.Uninstall(name)))
    {
      DeleteServer(name);
      DeleteManifest(name);
      ApplyTwo(old(View()), Writes(old(View()), Op.Uninstall(name)));
    }
  }

  lemma ApplyTwo(db: Db, ws: seq<Write>)
    requires |ws| >= 2
    ensures ApplyAll(db, ws) == ApplyAll(Apply(Apply(db, ws[0]), ws[1]), ws[2..])
  {
    assert ws[1..][1..] == ws[2..];
  }
}
