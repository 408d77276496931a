/** Per-user installs: the handlers of internal/api/apps.go, profiles.go and
    servers.go as lists of single statements over the tables of internal/store,
    cut short after any statement. */
module UserInstalls {
  import opened Common

  datatype Member = Member(profile: int, server: string)
  datatype Grant = Grant(user: int, server: string)
  datatype Pref = Pref(user: int, server: string, tool: string)

  datatype Db = Db(
    servers: set<string>,
    manifests: map<string, seq<string>>,
    profiles: map<int, int>,
    bundle: set<Member>,
    installs: set<Grant>,
    disabled: set<Pref>)

  const EMPTY := Db({}, map[], map[], {}, {}, {})

  /** One SQL statement, or one transaction. */
  datatype Write =
    | PutServer(name: string)
    | PutManifest(name: string, tools: seq<string>)
    | DeleteServer(name: string)
    | DeleteManifest(name: string)
    | InsertProfile(id: int, owner: int)
    | DeleteProfile(id: int)
    | SetProfileServers(id: int, names: seq<string>)
    | InsertInstall(user: int, server: string)
    | DropMemberships(user: int, server: string)
    | DropPrefs(user: int, server: string)
    | DropInstall(user: int, server: string)
    | SetTool(user: int, server: string, tool: string, enabled: bool)
    | SweepMemberships(server: string)
    | SweepInstalls(server: string)
    | SweepPrefs(server: string)

  function Apply(db: Db, w: Write): Db {
    match w
    case PutServer(name) => db.(servers := db.servers + {name})
    case PutManifest(name, tools) => db.(manifests := db.manifests[name := tools])
    case DeleteServer(name) => db.(servers := db.servers - {name})
    case DeleteManifest(name) => db.(manifests := db.manifests - {name})
    case InsertProfile(id, owner) => db.(profiles := db.profiles[id := owner])
    case DeleteProfile(id) =>
      db.(bundle := (set m <- db.bundle | m.profile != id), profiles := db.profiles - {id})
    case SetProfileServers(id, names) =>
      db.(bundle := (set m <- db.bundle | m.profile != id) + set n <- names :: Member(id, n))
    case InsertInstall(user, server) => db.(installs := db.installs + {Grant(user, server)})
    case DropMemberships(user, server) => db.(bundle := WithoutUser(db.bundle, db.profiles, user, server))
    case DropPrefs(user, server) => db.(disabled := set p <- db.disabled | !(p.user == user && p.server == server))
    case DropInstall(user, server) => db.(installs := db.installs - {Grant(user, server)})
    case SetTool(user, server, tool, enabled) =>
      db.(disabled :=
        if enabled then db.disabled - {Pref(user, server, tool)} else db.disabled + {Pref(user, server, tool)})
    case SweepMemberships(server) => db.(bundle := set m <- db.bundle | m.server != server)
    case SweepInstalls(server) => db.(installs := set g <- db.installs | g.server != server)
    case SweepPrefs(server) => db.(disabled := set p <- db.disabled | p.server != server)
  }

  function WithoutUser(bundle: set<Member>, profiles: map<int, int>, user: int, server: string): set<Member> {
    set m <- bundle | !(m.server == server && m.profile in profiles && profiles[m.profile] == user)
  }

  /** The state after the first n statements. */
  function After(db: Db, ws: seq<Write>, n: nat): Db
    requires n <= |ws|
  {
    if n == 0 then db else Apply(After(db, ws, n - 1), ws[n - 1])
  }

  /** One request. UninstallServer records whether RemoveServerFromProfiles failed,
      which the handler only logs; InstallServer whether it took the refresh path. */
  datatype Request =
    | InstallServer(name: string, tools: seq<string>, refresh: bool)
    | UninstallServer(name: string, sweepFails: bool)
    | CreateProfile(id: int, owner: int)
    | RemoveProfile(id: int)
    | PutProfileServers(id: int, names: seq<string>)
    | InstallForUser(user: int, server: string)
    | UninstallForUser(user: int, server: string)
    | SetAppTool(user: int, server: string, tool: string, enabled: bool)

  /** The statements a request issues, given the rows its guards read. */
  function Writes(db: Db, r: Request): seq<Write> {
    match r
    case InstallServer(name, tools, refresh) =>
      if refresh && name in db.manifests then [Write.PutServer(name), PutManifest(name, tools)]
      else [PutManifest(name, tools), Write.PutServer(name)]
    case UninstallServer(name, sweepFails) =>
      [Write.DeleteServer(name), DeleteManifest(name)]
      + (if sweepFails then [] else [SweepMemberships(name)])
      + [SweepInstalls(name), SweepPrefs(name), SweepMemberships(name)]
    case CreateProfile(id, owner) => if id in db.profiles then [] else [InsertProfile(id, owner)]
    case RemoveProfile(id) => if id in db.profiles then [DeleteProfile(id)] else []
    case PutProfileServers(id, names) =>
      if id in db.profiles && forall n <- names :: Grant(db.profiles[id], n) in db.installs
      then [SetProfileServers(id, names)] else []
    case InstallForUser(user, server) => if server in db.manifests then [InsertInstall(user, server)] else []
    case UninstallForUser(user, server) =>
      [DropMemberships(user, server), DropPrefs(user, server), DropInstall(user, server)]
    case SetAppTool(user, server, tool, enabled) =>
      if Grant(user, server) in db.installs && server in db.manifests && tool in db.manifests[server]
      then [SetTool(user, server, tool, enabled)] else []
  }

  /** The request cut short after n statements; n at or past the end completes it. */
  function Exec(db: Db, r: Request, n: nat): Db {
    var ws := Writes(db, r);
    After(db, ws, if n < |ws| then n else |ws|)
  }

  lemma OneStatement(db: Db, r: Request)
    requires |Writes(db, r)| <= 1
    ensures Exec(db, r, 1) == if Writes(db, r) == [] then db else Apply(db, Writes(db, r)[0])
  {
    assert |Writes(db, r)| == 1 ==> Exec(db, r, 1) == Apply(After(db, Writes(db, r), 0), Writes(db, r)[0]);
  }

  // ----- the relations -----

  /** Every bundle row names a live profile whose owner installed the server. */
  ghost predicate Owned(db: Db) {
    forall m <- db.bundle :: OwnedRow(db, m)
  }

  ghost predicate OwnedRow(db: Db, m: Member) {
    m.profile in db.profiles && Grant(db.profiles[m.profile], m.server) in db.installs
  }

  /** Every switched-off tool belongs to an installed server. */
  ghost predicate PrefsInstalled(db: Db) {
    forall p <- db.disabled :: Grant(p.user, p.server) in db.installs
  }

  ghost predicate Backed(db: Db) { db.servers <= db.manifests.Keys }

  /** The install sweep has run, no membership sweep has, and a row is left. */
  ghost predicate StrandsMembers(db: Db, r: Request, n: nat) {
    r.UninstallServer? && r.sweepFails && 3 <= n < 5 && exists m <- db.bundle :: m.server == r.name
  }

  /** The cut falls between the install sweep and the preference sweep. */
  ghost predicate StrandsPrefs(db: Db, r: Request, n: nat) {
    r.UninstallServer? && n == (if r.sweepFails then 3 else 4) && exists p <- db.disabled :: p.server == r.name
  }

  /** Every installed app is allow-listed. */
  ghost predicate Listed(db: Db) { forall g <- db.installs :: g.server in db.manifests }

  /** The manifest row is gone and the install sweep has not come yet. */
  ghost predicate StrandsInstalls(db: Db, r: Request, n: nat) {
    r.UninstallServer? && 2 <= n < (if r.sweepFails then 3 else 4) && exists g <- db.installs :: g.server == r.name
  }

  lemma {:induction false} UninstallServerShape(db: Db, r: Request, n: nat)
    requires r.UninstallServer? && n <= |Writes(db, r)|
    ensures var k := if r.sweepFails then 3 else 4;
            var after := After(db, Writes(db, r), n);
            && after.profiles == db.profiles
            && after.bundle ==
                  (if (!r.sweepFails && n >= 3) || n >= 5 then set m <- db.bundle | m.server != r.name else db.bundle)
            && after.installs == (if n >= k then set g <- db.installs | g.server != r.name else db.installs)
            && after.disabled == (if n >= k + 1 then set p <- db.disabled | p.server != r.name else db.disabled)
  {
    if n > 0 {
      UninstallServerShape(db, r, n - 1);
    }
  }

  lemma {:induction false} UninstallForUserShape(db: Db, r: Request, n: nat)
    requires r.UninstallForUser? && n <= 3
    ensures var after := After(db, Writes(db, r), n);
            && after.profiles == db.profiles
            && after.bundle == (if n >= 1 then WithoutUser(db.bundle, db.profiles, r.user, r.server) else db.bundle)
            && after.installs == (if n >= 3 then db.installs - {Grant(r.user, r.server)} else db.installs)
            && after.disabled ==
                  (if n >= 2 then set p <- db.disabled | !(p.user == r.user && p.server == r.server) else db.disabled)
  {
    if n > 0 {
      UninstallForUserShape(db, r, n - 1);
    }
  }

  lemma InstallServerShape(db: Db, r: Request, n: nat)
    requires r.InstallServer? && n <= 2
    ensures var after := After(db, Writes(db, r), n);
            after.profiles == db.profiles && after.bundle == db.bundle &&
            after.installs == db.installs && after.disabled == db.disabled
  {
    var ws := Writes(db, r);
    assert n == 2 ==> After(db, ws, 2) == Apply(After(db, ws, 1), ws[1]);
    assert n >= 1 ==> After(db, ws, 1) == Apply(After(db, ws, 0), ws[0]);
  }

  /** Cut anywhere, a request keeps bundle rows owned except in exactly one window. */
  lemma OwnedExactly(db: Db, r: Request, n: nat)
    requires Owned(db)
    ensures Owned(Exec(db, r, n)) <==> !StrandsMembers(db, r, n)
  {
    var ws := Writes(db, r);
    var k := if n < |ws| then n else |ws|;
    if r.UninstallServer? {
      UninstallServerShape(db, r, k);
      if StrandsMembers(db, r, n) {
        var m :| m in db.bundle && m.server == r.name;
        assert m in Exec(db, r, n).bundle;
      }
    } else if r.UninstallForUser? {
      UninstallForUserShape(db, r, k);
    } else if r.InstallServer? {
      InstallServerShape(db, r, k);
    } else if k == 1 {
      assert Exec(db, r, n) == Apply(After(db, ws, 0), ws[0]);
    }
  }

  /** Likewise for per-user tool preferences. */
  lemma PrefsExactly(db: Db, r: Request, n: nat)
    requires PrefsInstalled(db)
    ensures PrefsInstalled(Exec(db, r, n)) <==> !StrandsPrefs(db, r, n)
  {
    var ws := Writes(db, r);
    var k := if n < |ws| then n else |ws|;
    if r.UninstallServer? {
      UninstallServerShape(db, r, k);
      if StrandsPrefs(db, r, n) {
        var p :| p in db.disabled && p.server == r.name;
        assert p in Exec(db, r, n).disabled;
      }
    } else if r.UninstallForUser? {
      UninstallForUserShape(db, r, k);
    } else if r.InstallServer? {
      InstallServerShape(db, r, k);
    } else if k == 1 {
      assert Exec(db, r, n) == Apply(After(db, ws, 0), ws[0]);
    }
  }

  lemma {:induction false} UninstallManifests(db: Db, r: Request, n: nat)
    requires r.UninstallServer? && n <= |Writes(db, r)|
    ensures After(db, Writes(db, r), n).manifests == if n >= 2 then db.manifests - {r.name} else db.manifests
  {
    if n > 0 {
      UninstallManifests(db, r, n - 1);
    }
  }

  /** Likewise for installs of apps that are no longer allow-listed. */
  lemma ListedExactly(db: Db, r: Request, n: nat)
    requires Listed(db)
    ensures Listed(Exec(db, r, n)) <==> !StrandsInstalls(db, r, n)
  {
    var ws := Writes(db, r);
    var k := if n < |ws| then n else |ws|;
    if r.UninstallServer? {
      UninstallServerShape(db, r, k);
      UninstallManifests(db, r, k);
    } else if r.InstallServer? {
      InstallServerShape(db, r, k);
      assert k >= 1 ==> After(db, ws, 1) == Apply(After(db, ws, 0), ws[0]);
      assert k == 2 ==> After(db, ws, 2) == Apply(After(db, ws, 1), ws[1]);
    } else {
      UserRequestTables(db, r, k);
      if r.UninstallForUser? {
        UninstallForUserShape(db, r, k);
      } else if k == 1 {
        assert Exec(db, r, n) == Apply(After(db, ws, 0), ws[0]);
      }
    }
  }

  /** Every server row keeps its manifest row, wherever the request is cut. */
  lemma BackedAfter(db: Db, r: Request, n: nat)
    requires Backed(db) && n <= |Writes(db, r)|
    ensures Backed(After(db, Writes(db, r), n))
  {
    var ws := Writes(db, r);
    if r.UninstallServer? {
      UninstallBacked(db, r, n);
    } else if r.InstallServer? {
      assert n >= 1 ==> After(db, ws, 1) == Apply(After(db, ws, 0), ws[0]);
      assert n == 2 ==> After(db, ws, 2) == Apply(After(db, ws, 1), ws[1]);
    } else {
      UserRequestTables(db, r, n);
    }
  }

  lemma {:induction false} UninstallBacked(db: Db, r: Request, n: nat)
    requires Backed(db) && r.UninstallServer? && n <= |Writes(db, r)|
    ensures var t := After(db, Writes(db, r), n); Backed(t) && (n >= 1 ==> r.name !in t.servers)
  {
    if n > 0 {
      UninstallBacked(db, r, n - 1);
    }
  }

  lemma {:induction false} UserRequestTables(db: Db, r: Request, n: nat)
    requires !r.UninstallServer? && !r.InstallServer? && n <= |Writes(db, r)|
    ensures var t := After(db, Writes(db, r), n); t.servers == db.servers && t.manifests == db.manifests
  {
    if n > 0 {
      UserRequestTables(db, r, n - 1);
    }
  }

  // ----- runs -----

  datatype Step = Step(req: Request, cut: nat)

  function End(db: Db, steps: seq<Step>): Db
    decreases |steps|
  {
    if steps == [] then db else End(Exec(db, steps[0].req, steps[0].cut), steps[1..])
  }

  /** No step of the run is cut in a window that strands rows. */
  ghost predicate Careful(db: Db, steps: seq<Step>)
    decreases |steps|
  {
    steps == [] ||
    (&& !StrandsMembers(db, steps[0].req, steps[0].cut)
     && !StrandsPrefs(db, steps[0].req, steps[0].cut)
     && Careful(Exec(db, steps[0].req, steps[0].cut), steps[1..]))
  }

  /** Over every run the store keeps both relations at each cut outside the two windows,
      and keeps every server backed by a manifest unconditionally. */
  lemma {:induction false} RunKeeps(db: Db, steps: seq<Step>)
    requires Backed(db)
    ensures Backed(End(db, steps))
    ensures Owned(db) && PrefsInstalled(db) && Careful(db, steps) ==>
              Owned(End(db, steps)) && PrefsInstalled(End(db, steps))
    decreases |steps|
  {
    if steps != [] {
      var r, n := steps[0].req, steps[0].cut;
      var ws := Writes(db, r);
      BackedAfter(db, r, if n < |ws| then n else |ws|);
      if Owned(db) && PrefsInstalled(db) {
        OwnedExactly(db, r, n);
        PrefsExactly(db, r, n);
      }
      RunKeeps(Exec(db, r, n), steps[1..]);
    }
  }

  /** A run whose requests all complete without a failed sweep is careful. */
  lemma {:induction false} CompletedRunsAreCareful(db: Db, steps: seq<Step>)
    requires forall s <- steps :: s.cut >= 6 && (s.req.UninstallServer? ==> !s.req.sweepFails)
    ensures Careful(db, steps)
    decreases |steps|
  {
    if steps != [] {
      assert steps[0] in steps;
      CompletedRunsAreCareful(Exec(db, steps[0].req, steps[0].cut), steps[1..]);
    }
  }

  // ----- what completed requests leave -----

  lemma InstalledServer(db: Db, name: string, tools: seq<string>, refresh: bool)
    ensures Exec(db, InstallServer(name, tools, refresh), 2) ==
            db.(servers := db.servers + {name}, manifests := db.manifests[name := tools])
  {
    var ws := Writes(db, InstallServer(name, tools, refresh));
    assert After(db, ws, 1) == Apply(After(db, ws, 0), ws[0]);
    assert After(db, ws, 2) == Apply(After(db, ws, 1), ws[1]);
  }

  /** A completed admin uninstall leaves no row that names the server, and every other row. */
  lemma UninstalledServer(db: Db, name: string, sweepFails: bool)
    ensures var t := Exec(db, UninstallServer(name, sweepFails), 6);
            && t.servers == db.servers - {name} && t.manifests == db.manifests - {name} && t.profiles == db.profiles
            && (forall m :: m in t.bundle <==> m in db.bundle && m.server != name)
            && (forall g :: g in t.installs <==> g in db.installs && g.server != name)
            && (forall p :: p in t.disabled <==> p in db.disabled && p.server != name)
  {
    var r := UninstallServer(name, sweepFails);
    UninstallServerShape(db, r, |Writes(db, r)|);
    UninstallManifests(db, r, |Writes(db, r)|);
    UninstallServers(db, r, |Writes(db, r)|);
  }

  lemma {:induction false} UninstallServers(db: Db, r: Request, n: nat)
    requires r.UninstallServer? && n <= |Writes(db, r)|
    ensures After(db, Writes(db, r), n).servers == if n >= 1 then db.servers - {r.name} else db.servers
  {
    if n > 0 {
      UninstallServers(db, r, n - 1);
    }
  }

  /** A completed user uninstall removes the user's install, preferences and memberships
      for the server, and nothing else. */
  lemma UninstalledForUser(db: Db, user: int, server: string)
    ensures var t := Exec(db, UninstallForUser(user, server), 3);
            && t.servers == db.servers && t.manifests == db.manifests && t.profiles == db.profiles
            && t.installs == db.installs - {Grant(user, server)}
            && (forall p :: p in t.disabled <==> p in db.disabled && !(p.user == user && p.server == server))
            && (forall m :: m in t.bundle <==> m in db.bundle && !HeldBy(db, m, user, server))
  {
    UninstallForUserShape(db, UninstallForUser(user, server), 3);
    UserRequestTables(db, UninstallForUser(user, server), 3);
  }

  predicate HeldBy(db: Db, m: Member, user: int, server: string) {
    m.server == server && m.profile in db.profiles && db.profiles[m.profile] == user
  }

  /** The single-statement requests, each with its guard: what it changes, row by row. */
  lemma SingleWrites(db: Db, user: int, server: string, id: int, names: seq<string>)
    ensures Exec(db, InstallForUser(user, server), 1) ==
            if server in db.manifests then db.(installs := db.installs + {Grant(user, server)}) else db
    ensures Exec(db, CreateProfile(id, user), 1) ==
            if id in db.profiles then db else db.(profiles := db.profiles[id := user])
    ensures var t := Exec(db, PutProfileServers(id, names), 1);
            && t == db.(bundle := t.bundle)
            && var ok := id in db.profiles && forall n <- names :: Grant(db.profiles[id], n) in db.installs;
               forall m :: m in t.bundle <==> if ok && m.profile == id then m.server in names else m in db.bundle
    ensures var t := Exec(db, RemoveProfile(id), 1);
            && t == db.(bundle := t.bundle, profiles := db.profiles - {id})
            && (id in db.profiles ==> forall m :: m in t.bundle <==> m in db.bundle && m.profile != id)
  {
    OneStatement(db, InstallForUser(user, server));
    OneStatement(db, CreateProfile(id, user));
    OneStatement(db, PutProfileServers(id, names));
    OneStatement(db, RemoveProfile(id));
  }

  // ----- the windows are reached -----

  /** A server is allow-listed, a user installs it, bundles it and disables a tool. */
  function Setup(): seq<Step> {
    [Step(InstallServer("mail", ["send"], false), 2),
     Step(CreateProfile(1, 7), 1),
     Step(InstallForUser(7, "mail"), 1),
     Step(PutProfileServers(1, ["mail"]), 1),
     Step(SetAppTool(7, "mail", "send", false), 1)]
  }

  const LISTED := EMPTY.(servers := {"mail"}, manifests := map["mail" := ["send"]])
  const OPENED := LISTED.(profiles := map[1 := 7], installs := {Grant(7, "mail")})
  const READY := OPENED.(bundle := {Member(1, "mail")}, disabled := {Pref(7, "mail", "send")})

  lemma EndCons(db: Db, x: Step, steps: seq<Step>)
    ensures End(db, [x] + steps) == End(Exec(db, x.req, x.cut), steps)
  {
    assert ([x] + steps)[1..] == steps;
  }

  lemma AllowListed()
    ensures Exec(EMPTY, InstallServer("mail", ["send"], false), 2) == LISTED
  {
    var ws := Writes(EMPTY, InstallServer("mail", ["send"], false));
    assert After(EMPTY, ws, 1) == Apply(After(EMPTY, ws, 0), ws[0]);
    assert After(EMPTY, ws, 2) == Apply(After(EMPTY, ws, 1), ws[1]);
  }

  lemma Opened()
    ensures Exec(Exec(LISTED, CreateProfile(1, 7), 1), InstallForUser(7, "mail"), 1) == OPENED
  {
    OneStatement(LISTED, CreateProfile(1, 7));
    OneStatement(LISTED.(profiles := map[1 := 7]), InstallForUser(7, "mail"));
  }

  lemma Bundled()
    ensures Exec(Exec(OPENED, PutProfileServers(1, ["mail"]), 1), SetAppTool(7, "mail", "send", false), 1) == READY
  {
    var mid := OPENED.(bundle := {Member(1, "mail")});
    OneStatement(OPENED, PutProfileServers(1, ["mail"]));
    assert Exec(OPENED, PutProfileServers(1, ["mail"]), 1).bundle == mid.bundle;
    OneStatement(mid, SetAppTool(7, "mail", "send", false));
  }

  lemma SetupEnds()
    ensures End(EMPTY, Setup()) == READY
  {
    var x := Setup();
    EndCons(EMPTY, x[0], x[1..]);
    assert [x[0]] + x[1..] == x;
    AllowListed();
    EndCons(LISTED, x[1], x[2..]);
    assert [x[1]] + x[2..] == x[1..];
    var db := Exec(LISTED, CreateProfile(1, 7), 1);
    EndCons(db, x[2], x[3..]);
    assert [x[2]] + x[3..] == x[2..];
    Opened();
    EndCons(OPENED, x[3], x[4..]);
    assert [x[3]] + x[4..] == x[3..];
    Bundled();
    EndCons(Exec(OPENED, PutProfileServers(1, ["mail"]), 1), x[4], []);
    assert [x[4]] + [] == x[4..];
  }

  /** From the empty store, completed requests lead to a state that satisfies all three
      relations and in which one cut of an admin uninstall breaks each of them. */
  lemma WindowsAreReached()
    ensures var db := End(EMPTY, Setup());
            && Owned(db) && PrefsInstalled(db) && Listed(db)
            && !Owned(Exec(db, UninstallServer("mail", true), 3))
            && !PrefsInstalled(Exec(db, UninstallServer("mail", false), 4))
            && !Listed(Exec(db, UninstallServer("mail", false), 2))
  {
    SetupEnds();
    assert Member(1, "mail") in READY.bundle && Pref(7, "mail", "send") in READY.disabled;
    assert Grant(7, "mail") in READY.installs;
    OwnedExactly(READY, UninstallServer("mail", true), 3);
    PrefsExactly(READY, UninstallServer("mail", false), 4);
    ListedExactly(READY, UninstallServer("mail", false), 2);
  }

  /** Repeating the uninstall to the end repairs whatever an earlier cut stranded. */
  lemma RetryRepairs(db: Db, name: string, sweepFails: bool)
    requires forall m <- db.bundle :: m.server == name || OwnedRow(db, m)
    requires forall p <- db.disabled :: p.server == name || Grant(p.user, p.server) in db.installs
    ensures Owned(Exec(db, UninstallServer(name, sweepFails), 6)) &&
            PrefsInstalled(Exec(db, UninstallServer(name, sweepFails), 6))
  {
    var r := UninstallServer(name, sweepFails);
    UninstallServerShape(db, r, |Writes(db, r)|);
  }

  /** One user's uninstall leaves every other user's rows alone, at every cut. */
  lemma OtherUsersKeepTheirs(db: Db, user: int, server: string, n: nat)
    ensures var after := Exec(db, UninstallForUser(user, server), n);
            && (forall g <- db.installs :: g.user != user ==> g in after.installs)
            && (forall p <- db.disabled :: p.user != user ==> p in after.disabled)
            && (forall m <- db.bundle ::
                  m.profile in db.profiles && db.profiles[m.profile] != user ==> m in after.bundle)
  {
    UninstallForUserShape(db, UninstallForUser(user, server), if n < 3 then n else 3);
  }

  // ----- the store and the handlers -----

  class Tables {
    var servers: set<string>
    var manifests: map<string, seq<string>>
    var profiles: map<int, int>
    var bundle: set<Member>
    var installs: set<Grant>
    var disabled: set<Pref>

    ghost function View(): Db
      reads this
    {
      Db(servers, manifests, profiles, bundle, installs, disabled)
    }

    constructor ()
      ensures View() == EMPTY
    {
      servers, manifests, profiles, bundle, installs, disabled := {}, map[], map[], {}, {}, {};
    }

    method InsertNames(id: int, names: seq<string>)
      modifies `bundle
      ensures bundle == old(bundle) + set n <- names :: Member(id, n)
    {
      for i := 0 to |names|
        invariant bundle == old(bundle) + set n <- names[..i] :: Member(id, n)
      {
        assert names[..i + 1] == names[..i] + [names[i]];
        bundle := bundle + {Member(id, names[i])};
      }
      assert names[..|names|] == names;
    }

    method SetProfileServers(id: int, names: seq<string>) returns (ok: bool)
      modifies `bundle
      ensures ok == (id in profiles)
      ensures View() == if ok then Apply(old(View()), Write.SetProfileServers(id, names)) else old(View())
    {
      if id !in profiles {
        return false;
      }
      bundle := set m <- bundle | m.profile != id;
      InsertNames(id, names);
      ok := true;
    }

    /** The affected ids are exactly the profiles that held the server, each once. */
    method RemoveServerFromProfiles(server: string) returns (ids: seq<int>)
      modifies `bundle
      ensures View() == Apply(old(View()), SweepMemberships(server))
      ensures NoDup(ids) && forall id :: id in ids <==> Member(id, server) in old(bundle)
    {
      ids := [];
      var rows := set m <- bundle | m.server == server;
      while rows != {}
        invariant bundle == old(bundle) && NoDup(ids)
        invariant rows <= set m <- bundle | m.server == server
        invariant forall id :: id in ids <==> Member(id, server) in bundle && Member(id, server) !in rows
        decreases |rows|
      {
        var m :| m in rows;
        NoDupConcat(ids, [m.profile]);
        rows := rows - {m};
        ids := ids + [m.profile];
      }
      bundle := set m <- bundle | m.server != server;
    }

    method CascadeRemoveServer(server: string)
      modifies `installs, `disabled, `bundle
      ensures View() == After(old(View()), [SweepInstalls(server), SweepPrefs(server), SweepMemberships(server)], 3)
    {
      ghost var ws := [SweepInstalls(server), SweepPrefs(server), SweepMemberships(server)];
      installs := set g <- installs | g.server != server;
      assert View() == After(old(View()), ws, 1);
      disabled := set p <- disabled | p.server != server;
      assert View() == After(old(View()), ws, 2);
      bundle := set m <- bundle | m.server != server;
    }

    method HandleInstallForUser(user: int, server: string) returns (ok: bool)
      modifies `installs
      ensures ok == (server in manifests)
      ensures View() == Exec(old(View()), InstallForUser(user, server), 1)
    {
      OneStatement(View(), InstallForUser(user, server));
      ok := server in manifests;
      if ok {
        installs := installs + {Grant(user, server)};
      }
    }

    method HandleUninstallForUser(user: int, server: string)
      modifies `installs, `disabled, `bundle
      ensures View() == Exec(old(View()), UninstallForUser(user, server), 3)
    {
      ghost var ws := Writes(View(), UninstallForUser(user, server));
      bundle := set m <- bundle | !(m.server == server && m.profile in profiles && profiles[m.profile] == user);
      assert View() == After(old(View()), ws, 1);
      disabled := set p <- disabled | !(p.user == user && p.server == server);
      assert View() == After(old(View()), ws, 2);
      installs := installs - {Grant(user, server)};
    }

    method HandleSetAppTool(user: int, server: string, tool: string, enabled: bool) returns (ok: bool)
      modifies `disabled
      ensures ok <==> Grant(user, server) in installs && server in manifests && tool in manifests[server]
      ensures View() == Exec(old(View()), SetAppTool(user, server, tool, enabled), 1)
    {
      OneStatement(View(), SetAppTool(user, server, tool, enabled));
      if Grant(user, server) !in installs || server !in manifests {
        return false;
      }
      var tools := manifests[server];
      ok := false;
      for i := 0 to |tools|
        invariant ok == (tool in tools[..i]) && disabled == old(disabled)
      {
        if tools[i] == tool {
          ok := true;
        }
      }
      if ok {
        disabled := if enabled then disabled - {Pref(user, server, tool)} else disabled + {Pref(user, server, tool)};
      }
    }

    /** A bundle that was written is followed by the invalidation of its runtime. */
    method HandlePutProfileServers(id: int, names: seq<string>) returns (ok: bool, invalidated: seq<int>)
      modifies `bundle
      ensures ok <==> id in profiles && forall n <- names :: Grant(profiles[id], n) in installs
      ensures invalidated == if ok then [id] else []
      ensures View() == Exec(old(View()), PutProfileServers(id, names), 1)
    {
      OneStatement(View(), PutProfileServers(id, names));
      if id !in profiles {
        return false, [];
      }
      for i := 0 to |names|
        invariant bundle == old(bundle)
        invariant forall n <- names[..i] :: Grant(profiles[id], n) in installs
      {
        if Grant(profiles[id], names[i]) !in installs {
          assert names[i] in names;
          return false, [];
        }
      }
      assert names[..|names|] == names;
      ok := SetProfileServers(id, names);
      invalidated := [id];
    }

    method HandleRemoveProfile(id: int) returns (invalidated: seq<int>)
      modifies `bundle, `profiles
      ensures invalidated == if id in old(profiles) then [id] else []
      ensures View() == Exec(old(View()), RemoveProfile(id), 1)
    {
      OneStatement(View(), RemoveProfile(id));
      invalidated := [];
      if id in profiles {
        invalidated := [id];
        bundle := set m <- bundle | m.profile != id;
        profiles := profiles - {id};
      }
    }

    /** A completed uninstall, with the ids whose runtimes it invalidates. */
    method HandleUninstallServer(name: string, sweepFails: bool) returns (invalidated: seq<int>)
      modifies this
      ensures View() == Exec(old(View()), UninstallServer(name, sweepFails), 6)
      ensures NoDup(invalidated)
      ensures forall id :: id in invalidated <==> !sweepFails && Member(id, name) in old(bundle)
    {
      ghost var before := View();
      ghost var r := UninstallServer(name, sweepFails);
      servers := servers - {name};
      manifests := manifests - {name};
      invalidated := [];
      if !sweepFails {
        invalidated := RemoveServerFromProfiles(name);
      }
      CascadeRemoveServer(name);
      CascadeEnds(before, r, View());
    }
  }

  /** A retry repairs rows, not runtimes: once the sweep has failed, neither that call
      nor a completed repeat invalidates any profile, because the cascade has already
      removed the rows that named them. */
  method RetryMissesRuntimes(t: Tables, name: string) returns (first: seq<int>, second: seq<int>)
    modifies t
    ensures first == second == []
    ensures t.View() == Exec(Exec(old(t.View()), UninstallServer(name, true), 6), UninstallServer(name, false), 6)
  {
    ghost var before := t.View();
    first := t.HandleUninstallServer(name, true);
    NoRowLeft(before, name, true);
    assert forall id :: id !in first;
    NoMember(first);
    second := t.HandleUninstallServer(name, false);
    assert forall id :: id !in second;
    NoMember(second);
  }

  lemma NoMember(ids: seq<int>)
    requires forall id :: id !in ids
    ensures ids == []
  {
    var x := if |ids| > 0 then ids[0] else 0;
    assert |ids| > 0 ==> x in ids;
  }

  lemma NoRowLeft(db: Db, name: string, sweepFails: bool)
    ensures forall id :: Member(id, name) !in Exec(db, UninstallServer(name, sweepFails), 6).bundle
  {
    var r := UninstallServer(name, sweepFails);
    UninstallServerShape(db, r, |Writes(db, r)|);
  }

  /** The tail of the uninstall, statement by statement, is the cascade. */
  lemma CascadeEnds(db: Db, r: Request, t: Db)
    requires r.UninstallServer?
    requires var cut := db.(servers := db.servers - {r.name}, manifests := db.manifests - {r.name});
             var mid := if r.sweepFails then cut else Apply(cut, SweepMemberships(r.name));
             t == After(mid, [SweepInstalls(r.name), SweepPrefs(r.name), SweepMemberships(r.name)], 3)
    ensures t == Exec(db, r, 6)
  {
    var ws, k := Writes(db, r), |Writes(db, r)|;
    var tail := [SweepInstalls(r.name), SweepPrefs(r.name), SweepMemberships(r.name)];
    var cut := db.(servers := db.servers - {r.name}, manifests := db.manifests - {r.name});
    var mid := if r.sweepFails then cut else Apply(cut, SweepMemberships(r.name));
    assert After(db, ws, 1) == Apply(After(db, ws, 0), ws[0]);
    assert After(db, ws, 2) == cut;
    assert After(db, ws, k - 3) == mid == After(mid, tail, 0);
    assert After(db, ws, k - 2) == After(mid, tail, 1);
    assert After(db, ws, k - 1) == After(mid, tail, 2);
  }
}
