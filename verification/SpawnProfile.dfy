/** spawnProfile and exposeFor of internal/gateway/profilehost.go: which servers of
    a bundle are spawned, with which tools, and what a failure leaves behind. */
module SpawnProfile {
  import opened Common
  import opened UserInstalls

  /** Whether reading the bundle or the server list fails, the names at which each
      later read or the spawn itself fails, and whether building the aggregator fails. */
  datatype Faults = Faults(bundle: bool, servers: bool, lookup: set<string>, manifest: set<string>,
                           prefs: set<string>, spawn: set<string>, build: bool)

  /** Tools exposed by a backend; None exposes all of them. */
  datatype Backend = Backend(name: string, expose: Option<set<string>>)

  predicate Entitled(db: Db, owner: int, name: string) {
    name in db.servers && Grant(owner, name) in db.installs
  }

  /** The entitled names, in bundle order. */
  function Kept(db: Db, owner: int, names: seq<string>): seq<string> {
    if names == [] then []
    else
      var n := |names| - 1;
      Kept(db, owner, names[..n]) + if Entitled(db, owner, names[n]) then [names[n]] else []
  }

  /** The tools of a manifest that the owner has not switched off. */
  function Exposure(db: Db, f: Faults, owner: int, name: string): Option<set<string>> {
    if name !in db.manifests then None
    else Some(set t <- db.manifests[name] | name in f.prefs || Pref(owner, name, t) !in db.disabled)
  }

  /** A tool is exposed exactly when the manifest lists it and the owner's row that
      disables it is absent or could not be read; without a manifest all tools are. */
  lemma ExposedExactly(db: Db, f: Faults, owner: int, name: string, tool: string)
    ensures name !in db.manifests <==> Exposure(db, f, owner, name) == None
    ensures name in db.manifests ==>
              (tool in Exposure(db, f, owner, name).value <==>
               tool in db.manifests[name] && (Pref(owner, name, tool) in db.disabled ==> name in f.prefs))
  {
  }

  const NO_FAULTS := Faults(false, false, {}, {}, {}, {}, false)

  /** A toggle that is accepted decides whether a later build exposes the tool to that
      user, and changes the exposure of no other tool, server or user. */
  lemma ToggleDecidesExposure(db: Db, user: int, server: string, tool: string, enabled: bool)
    requires Grant(user, server) in db.installs && server in db.manifests && tool in db.manifests[server]
    ensures var t := Exec(db, SetAppTool(user, server, tool, enabled), 1);
            && (tool in Exposed(t, user, server) <==> enabled)
            && forall u, s, x :: u != user || s != server || x != tool ==>
                 (x in Exposed(t, u, s) <==> x in Exposed(db, u, s))
  {
    OneStatement(db, SetAppTool(user, server, tool, enabled));
  }

  /** The manifest tools a build would expose if every read succeeds. */
  function Exposed(db: Db, owner: int, name: string): set<string> {
    var e := Exposure(db, NO_FAULTS, owner, name);
    if e.Some? then e.value else {}
  }

  /** Building the bundle stops at this name. */
  predicate Blocked(db: Db, f: Faults, owner: int, name: string) {
    && name in db.servers
    && (name in f.lookup || (Grant(owner, name) in db.installs && (name in f.manifest || name in f.spawn)))
  }

  datatype Expose = Fail | Skip | Only(tools: Option<set<string>>)

  method ExposeFor(db: Db, f: Faults, owner: int, name: string) returns (e: Expose)
    ensures e.Fail? <==> name in f.lookup || (Grant(owner, name) in db.installs && name in f.manifest)
    ensures e.Skip? <==> name !in f.lookup && Grant(owner, name) !in db.installs
    ensures e.Only? ==> e.tools == Exposure(db, f, owner, name)
    ensures e.Only? && name in db.manifests ==> e.tools.Some? && forall tool :: tool in e.tools.value <==>
              tool in db.manifests[name] && (Pref(owner, name, tool) in db.disabled ==> name in f.prefs)
    ensures e.Only? && name !in db.manifests ==> e.tools == None
  {
    if name in f.lookup {
      return Fail;
    }
    if Grant(owner, name) !in db.installs {
      return Skip;
    }
    if name in f.manifest {
      return Fail;
    }
    if name !in db.manifests {
      return Only(None);
    }
    var tools := db.manifests[name];
    var disabled :=
      if name in f.prefs then {} else set p <- db.disabled | p.user == owner && p.server == name :: p.tool;
    var expose: set<string> := {};
    for i := 0 to |tools|
      invariant expose == set t <- tools[..i] | t !in disabled
    {
      if tools[i] !in disabled {
        expose := expose + {tools[i]};
      }
      assert tools[..i + 1] == tools[..i] + [tools[i]];
    }
    assert tools[..|tools|] == tools;
    forall t | t in tools ensures t in disabled <==> name !in f.prefs && Pref(owner, name, t) in db.disabled {
      assert t in disabled ==> exists p <- db.disabled :: p.user == owner && p.server == name && p.tool == t;
    }
    assert expose == set t <- tools | name in f.prefs || Pref(owner, name, t) !in db.disabled;
    return Only(Some(expose));
  }

  function Names(bs: seq<Backend>): seq<string> { seq(|bs|, i requires 0 <= i < |bs| => bs[i].name) }

  /** How far the loop gets: up to the first blocked name. */
  ghost predicate StopsAt(db: Db, f: Faults, owner: int, names: seq<string>, i: nat) {
    && i <= |names|
    && (forall j :: 0 <= j < i ==> !Blocked(db, f, owner, names[j]))
    && (i < |names| ==> Blocked(db, f, owner, names[i]))
  }

  /** Builds the bundle. `spawned` are the sandboxes started, `cleaned` those torn
      down again before returning. */
  method Build(db: Db, f: Faults, owner: int, names: seq<string>)
    returns (ok: bool, backends: seq<Backend>, spawned: seq<string>, cleaned: seq<string>)
    ensures ok <==> !f.bundle && !f.servers && !f.build && forall n <- names :: !Blocked(db, f, owner, n)
    ensures ok ==> forall n <- names :: n in db.servers && Grant(owner, n) in db.installs ==>
              n !in f.lookup && n !in f.manifest && n !in f.spawn
    ensures ok ==> cleaned == [] && Names(backends) == spawned == Kept(db, owner, names)
    ensures ok ==> forall b <- backends :: b.expose == Exposure(db, f, owner, b.name)
    ensures !ok ==> backends == [] && cleaned == spawned
    ensures f.bundle || f.servers ==> spawned == []
    ensures !ok && !f.bundle && !f.servers ==>
              exists i: nat :: StopsAt(db, f, owner, names, i) && spawned == Kept(db, owner, names[..i])
  {
    backends, spawned, cleaned := [], [], [];
    if f.bundle || f.servers {
      ok := false;
      return;
    }
    for i := 0 to |names|
      invariant cleaned == [] && spawned == Names(backends) == Kept(db, owner, names[..i])
      invariant forall j :: 0 <= j < i ==> !Blocked(db, f, owner, names[j])
      invariant forall b <- backends :: b.expose == Exposure(db, f, owner, b.name)
    {
      var name := names[i];
      assert names[..i + 1][..i] == names[..i];
      assert name in names;
      if name in db.servers {
        var e := ExposeFor(db, f, owner, name);
        if e.Fail? || (e.Only? && name in f.spawn) {
          assert StopsAt(db, f, owner, names, i);
          ok, backends, cleaned := false, [], spawned;
          return;
        }
        if e.Only? {
          spawned := spawned + [name];
          backends := backends + [Backend(name, e.tools)];
        }
      }
    }
    assert names[..|names|] == names;
    ok := !f.build;
    if !ok {
      assert StopsAt(db, f, owner, names, |names|);
      backends, cleaned := [], spawned;
    }
  }

  lemma {:induction false} KeptExactly(db: Db, owner: int, names: seq<string>)
    ensures forall n :: n in Kept(db, owner, names) <==> n in names && Entitled(db, owner, n)
  {
    if names != [] {
      KeptExactly(db, owner, names[..|names| - 1]);
      assert names == names[..|names| - 1] + [names[|names| - 1]];
    }
  }

  /** A name stops the build exactly when its server exists and either the install row
      cannot be read, or the owner installed it and its manifest read or its spawn fails. */
  lemma BlockedExactly(db: Db, f: Faults, owner: int, name: string)
    ensures Blocked(db, f, owner, name) <==>
            || (name in db.servers && name in f.lookup)
            || (name in db.servers && Grant(owner, name) in db.installs && name in f.manifest + f.spawn)
  {
  }

  /** Names are kept one by one, in bundle order. */
  lemma {:induction false} KeptInOrder(db: Db, owner: int, a: seq<string>, name: string, b: seq<string>)
    ensures Kept(db, owner, a + [name] + b) ==
            Kept(db, owner, a) +
            (if name in db.servers && Grant(owner, name) in db.installs then [name] else []) + Kept(db, owner, b)
    decreases |b|
  {
    var all := a + [name] + b;
    if b == [] {
      assert all[..|all| - 1] == a && all[|all| - 1] == name;
      assert all == a + [name];
    } else {
      var n := |b| - 1;
      KeptInOrder(db, owner, a, name, b[..n]);
      assert all[..|all| - 1] == a + [name] + b[..n];
    }
  }

  /** Whatever rows earlier cuts stranded, a build starts only servers in the bundle
      that exist and that the owner has installed; and every one it starts has a
      manifest, so its tools are that manifest's and never all tools. */
  lemma SpawnsOnlyEntitled(steps: seq<Step>, f: Faults, owner: int, pid: int, names: seq<string>, i: nat)
    requires i <= |names|
    requires var db := End(EMPTY, steps); forall n :: n in names <==> Member(pid, n) in db.bundle
    ensures var db := End(EMPTY, steps);
            forall n <- Kept(db, owner, names[..i]) ::
              Member(pid, n) in db.bundle && n in db.servers && Grant(owner, n) in db.installs
              && n in db.manifests && Exposure(db, f, owner, n).Some?
  {
    var db := End(EMPTY, steps);
    RunKeeps(EMPTY, steps);
    KeptExactly(db, owner, names[..i]);
    assert forall n :: n in names[..i] ==> n in names;
  }

  /** Along a careful run nothing is skipped but servers that are gone: every bundle
      name whose server row exists is built. */
  lemma NothingElseIsSkipped(steps: seq<Step>, pid: int, names: seq<string>)
    requires Careful(EMPTY, steps)
    requires var db := End(EMPTY, steps); pid in db.profiles && forall n :: n in names <==> Member(pid, n) in db.bundle
    ensures var db := End(EMPTY, steps);
            forall n <- names :: n in Kept(db, db.profiles[pid], names) <==> n in db.servers
  {
    var db := End(EMPTY, steps);
    RunKeeps(EMPTY, steps);
    KeptExactly(db, db.profiles[pid], names);
  }
}
