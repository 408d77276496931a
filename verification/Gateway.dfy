/** ProfileHost and the sandbox protocol run together, as cmd/gateway wires
    them: a backend of the host is a sandbox whose spawn has returned, and the
    host's call of a Cleanup closure starts that sandbox's releases.

    A cleanup call acts on the sandbox whatever state it is in; that it always
    finds the sandbox up, and finds it so only once, is a theorem here. */
module Gateway {
  import opened Common
  import Netmgr
  import H = ProfileRuns
  import N = Sandboxes
  import ProfileHost
  import Resolver
  import Tenants

  datatype State = State(host: H.State, net: N.State)

  datatype Event =
    | HostStep(h: H.Event)             // any host event but the return of a successful spawn
    | Handover(c: nat, b: nat)         // h.Spawn returns sandbox b, spawned for the profile of call c
    | NetStep(n: N.Event)              // progress of one spawn or one cleanup

  function CallCleanup(net: N.State, b: nat): N.State {
    if b < |net.actors| && net.actors[b].phase.HasIndex() then N.CallCleanup(net, b) else net
  }

  function CallCleanups(net: N.State, bs: seq<nat>): N.State
    decreases |bs|
  {
    if bs == [] then net else CallCleanups(CallCleanup(net, bs[0]), bs[1..])
  }

  ghost predicate Enabled(g: State, e: Event, limit: nat) {
    match e
    case HostStep(h) => !h.SpawnOk? && H.Enabled(g.host, h)
    case Handover(c, b) =>
      && H.Enabled(g.host, H.SpawnOk(c, b))
      && b < |g.net.actors| && g.net.actors[b].phase.Up?
      && g.net.actors[b].id.tenant == Tenants.FormatInt(g.host.callers[c].pid)
    case NetStep(n) => !n.Cleanup? && N.Enabled(g.net, n) && (n.Allocate? ==> |g.net.used| < limit)
  }

  /** The Cleanup closures the host calls in one step. */
  function Called(s: H.State, h: H.Event): seq<nat>
    requires H.Enabled(s, h)
  {
    var t := H.Step(s, h);
    if |s.log| <= |t.log| then t.log[|s.log|..] else []
  }

  ghost function Step(g: State, e: Event, limit: nat): State
    requires Enabled(g, e, limit)
  {
    match e
    case HostStep(h) => State(H.Step(g.host, h), CallCleanups(g.net, Called(g.host, h)))
    case Handover(c, b) => g.(host := H.Step(g.host, H.SpawnOk(c, b)))
    case NetStep(n) => g.(net := N.Step(g.net, n))
  }

  ghost predicate Init(g: State) { H.Init(g.host) && N.Init(g.net) }

  ghost predicate Run(g: State, es: seq<Event>, t: State, limit: nat)
    decreases |es|
  {
    if es == [] then g == t else Enabled(g, es[0], limit) && Run(Step(g, es[0], limit), es[1..], t, limit)
  }

  /** A backend the host has not cleaned is up; a cleaned one is being, or has
      been, taken down by exactly one call. */
  ghost predicate Linked(g: State) {
    && (forall b :: b in g.host.spawned ==> b < |g.net.actors|)
    && (forall b: nat :: b < |g.net.actors| ==>
          var x := g.net.actors[b];
          if b in g.host.log then x.cleanups == 1 && x.phase.Unwinding?
          else x.cleanups == 0 && (b in g.host.spawned ==> x.phase.Up?))
  }

  ghost predicate Inv(g: State, limit: nat) {
    H.Inv(g.host) && N.Inv(g.net, limit) && Linked(g)
  }

  lemma HostLogGrows(s: H.State, h: H.Event)
    requires H.Enabled(s, h) && !h.SpawnOk?
    ensures s.log <= H.Step(s, h).log && H.Step(s, h).spawned == s.spawned
    ensures H.Step(s, h).log == s.log + Called(s, h)
  {
  }

  /** Every closure the host calls belongs to a sandbox that is up and was never cleaned. */
  lemma CalledOnce(g: State, h: H.Event, limit: nat)
    requires Inv(g, limit) && H.Enabled(g.host, h) && !h.SpawnOk?
    ensures AllUp(g.net, Called(g.host, h))
    ensures forall b :: b in Called(g.host, h) ==> b in g.host.spawned && b !in g.host.log
  {
    var t, q := H.Step(g.host, h), Called(g.host, h);
    H.StepInv(g.host, h);
    HostLogGrows(g.host, h);
    forall i, j | 0 <= i < j < |q| ensures q[i] != q[j] {
      assert q[i] == t.log[|g.host.log| + i] && q[j] == t.log[|g.host.log| + j];
    }
    forall b | b in q ensures b in g.host.spawned && b !in g.host.log {
      var i :| 0 <= i < |q| && q[i] == b;
      assert t.log[|g.host.log| + i] == b;
      assert b in t.log;
      forall j | 0 <= j < |g.host.log| ensures g.host.log[j] != b {
        assert t.log[j] == g.host.log[j];
      }
    }
    forall i | 0 <= i < |q| ensures IsUp(g.net, q[i]) {
      assert q[i] in q;
    }
  }

  /** Up, and no Cleanup call has reached it. */
  ghost predicate IsUp(net: N.State, b: nat) {
    b < |net.actors| && net.actors[b].phase.Up? && net.actors[b].cleanups == 0
  }

  ghost predicate AllUp(net: N.State, bs: seq<nat>) {
    NoDup(bs) && forall i :: 0 <= i < |bs| ==> IsUp(net, bs[i])
  }

  lemma CleanupKeepsInv(net: N.State, b: nat, limit: nat)
    requires N.Inv(net, limit) && limit <= Netmgr.TWO30
    requires IsUp(net, b)
    ensures var t := CallCleanup(net, b);
            && N.Inv(t, limit)
            && t.actors == net.actors[b := t.actors[b]] && t.actors[b].phase.Unwinding? && t.actors[b].cleanups == 1
  {
    assert N.Step(net, N.Cleanup(b)) == CallCleanup(net, b);
    N.StepKeepsInv(net, N.Cleanup(b), limit);
  }

  lemma {:induction false} CleanupsKeepInv(net: N.State, bs: seq<nat>, limit: nat)
    requires N.Inv(net, limit) && limit <= Netmgr.TWO30 && AllUp(net, bs)
    ensures N.Inv(CallCleanups(net, bs), limit)
    decreases |bs|
  {
    if bs != [] {
      CleanupKeepsInv(net, bs[0], limit);
      AllUpTail(net, bs);
      CleanupsKeepInv(CallCleanup(net, bs[0]), bs[1..], limit);
    }
  }

  lemma AllUpTail(net: N.State, bs: seq<nat>)
    requires AllUp(net, bs) && bs != []
    ensures AllUp(CallCleanup(net, bs[0]), bs[1..])
  {
  }

  /** What a step does to one sandbox, given whether its closure was called. */
  ghost predicate Cleaned(x: N.Actor, y: N.Actor, called: bool) {
    y.id == x.id && if called then y.phase.Unwinding? && y.cleanups == 1 else y == x
  }

  lemma {:induction false} CleanupsActors(net: N.State, bs: seq<nat>)
    requires AllUp(net, bs)
    ensures var t := CallCleanups(net, bs);
            && |t.actors| == |net.actors|
            && forall b: nat :: b < |net.actors| ==> Cleaned(net.actors[b], t.actors[b], b in bs)
    decreases |bs|
  {
    if bs != [] {
      AllUpTail(net, bs);
      CleanupsActors(CallCleanup(net, bs[0]), bs[1..]);
      assert bs == [bs[0]] + bs[1..];
    }
  }

  lemma HostStepInv(g: State, h: H.Event, limit: nat)
    requires Inv(g, limit) && limit <= Netmgr.TWO30 && Enabled(g, HostStep(h), limit)
    ensures Inv(Step(g, HostStep(h), limit), limit)
  {
    CalledOnce(g, h, limit);
    HostLogGrows(g.host, h);
    H.StepInv(g.host, h);
    CleanupsKeepInv(g.net, Called(g.host, h), limit);
    CleanupsActors(g.net, Called(g.host, h));
    CleanupsLinked(g, Step(g, HostStep(h), limit), Called(g.host, h));
  }

  lemma CleanupsLinked(g: State, t: State, bs: seq<nat>)
    requires Linked(g) && t.host.spawned == g.host.spawned && t.host.log == g.host.log + bs
    requires |t.net.actors| == |g.net.actors|
    requires forall b: nat :: b < |g.net.actors| ==> Cleaned(g.net.actors[b], t.net.actors[b], b in bs)
    ensures Linked(t)
  {
  }

  lemma NetStepLinked(s: N.State, n: N.Event)
    requires N.Enabled(s, n) && !n.Cleanup?
    ensures var t := N.Step(s, n);
            && |t.actors| == |s.actors|
            && (forall b: nat :: b < |s.actors| ==>
                  && t.actors[b].id == s.actors[b].id
                  && t.actors[b].cleanups == s.actors[b].cleanups
                  && (s.actors[b].phase.Up? ==> t.actors[b].phase.Up?)
                  && (s.actors[b].phase.Unwinding? ==> t.actors[b].phase.Unwinding?))
  {
  }

  lemma StepInv(g: State, e: Event, limit: nat)
    requires Inv(g, limit) && limit <= Netmgr.TWO30 && Enabled(g, e, limit)
    ensures Inv(Step(g, e, limit), limit)
  {
    match e
    case HostStep(h) => HostStepInv(g, h, limit);
    case Handover(c, b) => H.StepInv(g.host, H.SpawnOk(c, b));
    case NetStep(n) =>
      N.StepKeepsInv(g.net, n, limit);
      NetStepLinked(g.net, n);
  }

  lemma {:induction false} RunInv(g: State, es: seq<Event>, t: State, limit: nat)
    requires Inv(g, limit) && limit <= Netmgr.TWO30 && Run(g, es, t, limit)
    ensures Inv(t, limit)
    decreases |es|
  {
    if es != [] {
      StepInv(g, es[0], limit);
      RunInv(Step(g, es[0], limit), es[1..], t, limit);
    }
  }

  lemma Reachable(g: State, es: seq<Event>, t: State, limit: nat)
    requires Init(g) && limit <= Netmgr.TWO30 && Run(g, es, t, limit)
    ensures Inv(t, limit)
  {
    H.InitInv(g.host);
    N.InitInv(g.net, limit);
    RunInv(g, es, t, limit);
  }

  /** In every run of the whole gateway, while any party of the host holds a
      backend, the proxy resolves that backend's address to that backend's
      server and tenant, and no other sandbox holds the address. */
  lemma HeldBackendIsResolved(g: State, es: seq<Event>, t: State, limit: nat, x: H.Holder, b: nat)
    requires Init(g) && limit <= Netmgr.TWO30 && Run(g, es, t, limit)
    requires b in H.Held(t.host, x)
    ensures b < |t.net.actors| && t.net.actors[b].phase.Up?
    ensures var ip := Netmgr.SandboxIP(t.net.base, t.net.actors[b].phase.k);
            && N.Lookup(t.net, ip) == (true, t.net.actors[b].id)
            && forall a: nat :: N.Serves(t.net, a, ip) ==> a == b
  {
    Reachable(g, es, t, limit);
    assert b in t.host.spawned && b !in t.host.log;
    var ip := Netmgr.SandboxIP(t.net.base, t.net.actors[b].phase.k);
    N.HolderIsUnique(t.net, limit, ip);
    assert N.Owes(t.net, b, N.Unbind) && N.Owes(t.net, b, N.Free);
    assert N.Serves(t.net, b, ip);
  }

  // ----- tenants -----

  /** The profile on whose behalf a party holds closures. */
  function ProfileOf(s: H.State, x: H.Holder): ProfileHost.Pid {
    match x
    case ByCall(c) => if c < |s.callers| then s.callers[c].pid else 0
    case ByStore(p) => p
    case ByTeardown(k) => k.pid
  }

  predicate TenantIs(net: N.State, b: nat, p: ProfileHost.Pid) {
    b < |net.actors| && net.actors[b].id.tenant == Tenants.FormatInt(p)
  }

  /** Every held backend was spawned with its holder's profile as tenant. */
  ghost predicate Tenanted(g: State) {
    forall x: H.Holder, b :: b in H.Held(g.host, x) ==> TenantIs(g.net, b, ProfileOf(g.host, x))
  }

  ghost predicate SameIds(s: N.State, t: N.State) {
    |t.actors| == |s.actors| && forall b :: 0 <= b < |s.actors| ==> t.actors[b].id == s.actors[b].id
  }

  lemma TenantStays(s: N.State, t: N.State, b: nat, p: ProfileHost.Pid)
    requires SameIds(s, t) && TenantIs(s, b, p)
    ensures TenantIs(t, b, p)
  {
  }

  /** The party that held, before the step, what `x` holds after it. */
  function From(s: H.State, h: H.Event, x: H.Holder): H.Holder
    requires H.Enabled(s, h)
  {
    match h
    case CommitBuild(c) =>
      if x == H.ByStore(s.callers[c].pid) && s.callers[c].pc.Ready? && s.h.runtimes.Some? then H.ByCall(c) else x
    case Invalidate(p) =>
      if x == H.ByTeardown(H.TKey(s.ops, p)) && p in ProfileHost.Runtimes(s.h) then H.ByStore(p) else x
    case Close =>
      if x.ByTeardown? && x.k.op == s.ops && x.k.pid in ProfileHost.Runtimes(s.h) then H.ByStore(x.k.pid) else x
    case _ => x
  }

  /** What `x` holds after the step, one party of the same profile held before it. */
  ghost predicate Inherits(s: H.State, h: H.Event, x: H.Holder)
    requires H.Enabled(s, h)
  {
    var t, y := H.Step(s, h), From(s, h, x);
    forall b :: b in H.Held(t, x) ==> b in H.Held(s, y) && ProfileOf(s, y) == ProfileOf(t, x)
  }

  lemma CommitInherits(s: H.State, c: nat, x: H.Holder)
    requires H.Enabled(s, H.CommitBuild(c))
    ensures Inherits(s, H.CommitBuild(c), x)
  {
  }

  lemma ServiceInherits(s: H.State, h: H.Event, x: H.Holder)
    requires H.Enabled(s, h) && !h.OfCall()
    ensures Inherits(s, h, x)
  {
  }

  lemma CallInherits(s: H.State, h: H.Event, x: H.Holder)
    requires H.Enabled(s, h) && h.OfCall() && !h.SpawnOk? && !h.CommitBuild?
    ensures Inherits(s, h, x)
  {
  }

  /** Closures change hands only within one profile. */
  lemma HeldComesFrom(s: H.State, h: H.Event, x: H.Holder)
    requires H.Enabled(s, h) && !h.SpawnOk?
    ensures Inherits(s, h, x)
  {
    if h.CommitBuild? {
      CommitInherits(s, h.c, x);
    } else if h.OfCall() {
      CallInherits(s, h, x);
    } else {
      ServiceInherits(s, h, x);
    }
  }

  lemma HandoverHolds(s: H.State, c: nat, b: nat, x: H.Holder, d: nat)
    requires H.Enabled(s, H.SpawnOk(c, b)) && d in H.Held(H.Step(s, H.SpawnOk(c, b)), x)
    ensures ProfileOf(H.Step(s, H.SpawnOk(c, b)), x) == ProfileOf(s, x)
    ensures d in H.Held(s, x) || (x == H.ByCall(c) && d == b)
  {
  }

  /** A spawn that returns is handed to the call that asked for it, which then holds the
      sandbox's closure behind those it already had. */
  lemma HandoverGives(g: State, c: nat, b: nat, limit: nat)
    requires Enabled(g, Handover(c, b), limit)
    ensures var t := Step(g, Handover(c, b), limit);
            && t.net == g.net && b in t.host.spawned
            && H.Held(t.host, H.ByCall(c)) == H.Held(g.host, H.ByCall(c)) + [b]
  {
  }

  lemma HandoverTenanted(g: State, c: nat, b: nat, limit: nat)
    requires Tenanted(g) && Enabled(g, Handover(c, b), limit)
    ensures Tenanted(Step(g, Handover(c, b), limit))
  {
    var t := Step(g, Handover(c, b), limit);
    forall x: H.Holder, d | d in H.Held(t.host, x) ensures TenantIs(t.net, d, ProfileOf(t.host, x)) {
      HandoverHolds(g.host, c, b, x, d);
    }
  }

  lemma HostStepTenanted(g: State, h: H.Event, net: N.State)
    requires Tenanted(g) && H.Enabled(g.host, h) && !h.SpawnOk? && SameIds(g.net, net)
    ensures Tenanted(State(H.Step(g.host, h), net))
  {
    var t := State(H.Step(g.host, h), net);
    forall x: H.Holder, b | b in H.Held(t.host, x) ensures TenantIs(t.net, b, ProfileOf(t.host, x)) {
      HeldComesFrom(g.host, h, x);
      TenantStays(g.net, net, b, ProfileOf(g.host, From(g.host, h, x)));
    }
  }

  lemma CalledKeepsIds(g: State, h: H.Event, limit: nat)
    requires Inv(g, limit) && H.Enabled(g.host, h) && !h.SpawnOk?
    ensures SameIds(g.net, CallCleanups(g.net, Called(g.host, h)))
  {
    var q := Called(g.host, h);
    CalledOnce(g, h, limit);
    CleanupsActors(g.net, q);
    forall b: nat | b < |g.net.actors| ensures CallCleanups(g.net, q).actors[b].id == g.net.actors[b].id {
      assert Cleaned(g.net.actors[b], CallCleanups(g.net, q).actors[b], b in q);
    }
  }

  lemma NetStepTenanted(g: State, net: N.State)
    requires Tenanted(g) && SameIds(g.net, net)
    ensures Tenanted(g.(net := net))
  {
    forall x: H.Holder, b | b in H.Held(g.host, x) ensures TenantIs(net, b, ProfileOf(g.host, x)) {
      TenantStays(g.net, net, b, ProfileOf(g.host, x));
    }
  }

  lemma StepTenanted(g: State, e: Event, limit: nat)
    requires Inv(g, limit) && Tenanted(g) && Enabled(g, e, limit)
    ensures Tenanted(Step(g, e, limit))
  {
    match e
    case HostStep(h) =>
      CalledKeepsIds(g, h, limit);
      HostStepTenanted(g, h, CallCleanups(g.net, Called(g.host, h)));
    case Handover(c, b) => HandoverTenanted(g, c, b, limit);
    case NetStep(n) =>
      NetStepLinked(g.net, n);
      NetStepTenanted(g, N.Step(g.net, n));
  }

  lemma {:induction false} RunTenanted(g: State, es: seq<Event>, t: State, limit: nat)
    requires Inv(g, limit) && limit <= Netmgr.TWO30 && Tenanted(g) && Run(g, es, t, limit)
    ensures Tenanted(t)
    decreases |es|
  {
    if es != [] {
      StepInv(g, es[0], limit);
      StepTenanted(g, es[0], limit);
      RunTenanted(Step(g, es[0], limit), es[1..], t, limit);
    }
  }

  /** End to end: in every run, the address of a backend stored for a profile
      resolves in the proxy to that profile as tenant, and the resolver turns it
      into the profile's owner, whose credentials it then uses; if it cannot read
      the profile it takes the user with the profile's id. */
  lemma ProfileTrafficIsItsOwners(g: State, es: seq<Event>, t: State, limit: nat,
                                  p: ProfileHost.Pid, b: nat, w: Resolver.World)
    requires Init(g) && limit <= Netmgr.TWO30 && Run(g, es, t, limit)
    requires b in H.Held(t.host, H.ByStore(p)) && Tenants.IsInt64(p)
    ensures b < |t.net.actors| && t.net.actors[b].phase.Up?
    ensures var (ok, id) := N.Lookup(t.net, Netmgr.SandboxIP(t.net.base, t.net.actors[b].phase.k));
            && ok && id.server == t.net.actors[b].id.server && id.tenant == Tenants.FormatInt(p)
            && Resolver.ResolveTenant(w, id.tenant) == Tenants.FormatInt(Resolver.CreditedUser(w, p))
  {
    HeldBackendIsResolved(g, es, t, limit, H.ByStore(p), b);
    StoredTenant(g, es, t, limit, p, b);
    Resolver.ProfileUsesItsOwnersCredentials(w, t.net.actors[b].id.server, p, p);
  }

  lemma StoredTenant(g: State, es: seq<Event>, t: State, limit: nat, p: ProfileHost.Pid, b: nat)
    requires Init(g) && limit <= Netmgr.TWO30 && Run(g, es, t, limit) && b in H.Held(t.host, H.ByStore(p))
    ensures TenantIs(t.net, b, p)
  {
    InitTenanted(g, limit);
    RunTenanted(g, es, t, limit);
    assert ProfileOf(t.host, H.ByStore(p)) == p;
  }

  lemma InitTenanted(g: State, limit: nat)
    requires Init(g)
    ensures Inv(g, limit) && Tenanted(g)
  {
    H.InitInv(g.host);
    N.InitInv(g.net, limit);
  }

  /** Whatever the interleaving, an address resolves only while one sandbox is
      registered there, and only to that sandbox. */
  lemma LookupIsNeverForeign(g: State, es: seq<Event>, t: State, limit: nat, ip: Netmgr.U32)
    requires Init(g) && limit <= Netmgr.TWO30 && Run(g, es, t, limit)
    ensures N.Lookup(t.net, ip).0 <==> exists a: nat :: N.Serves(t.net, a, ip)
    ensures forall a: nat :: N.Serves(t.net, a, ip) ==> N.Lookup(t.net, ip) == (true, t.net.actors[a].id)
  {
    Reachable(g, es, t, limit);
    N.HolderIsUnique(t.net, limit, ip);
  }

  /** No spawn is still running and every started release has finished. */
  ghost predicate AtRest(g: State) {
    forall a: nat :: a < |g.net.actors| ==>
      var ph := g.net.actors[a].phase;
      !ph.Spawning() && (ph.Up? ==> a in g.host.spawned) && (ph.Unwinding? ==> ph.todo == [])
  }

  /** After Close, once all calls have returned and all releases have run, the
      gateway holds no subnet, no registry entry, no veth and no process. */
  lemma ShutdownLeavesNothing(g: State, es: seq<Event>, t: State, limit: nat)
    requires Init(g) && limit <= Netmgr.TWO30 && Run(g, es, t, limit)
    requires H.Quiescent(t.host) && AtRest(t)
    ensures t.net.used == {} && t.net.registry == map[] && t.net.veths == {} && t.net.alive == {}
  {
    Reachable(g, es, t, limit);
    assert forall x: H.Holder :: H.Held(t.host, x) == [];
    assert forall a: nat :: a < |t.net.actors| ==> !t.net.actors[a].phase.Up?;
    N.NothingLeaks(t.net, limit);
  }
}
