/** The proxy's connection gate and header injection: handle, pump and
    connLimiter of internal/proxy/proxy.go, over the resolver's decision. */
module Egress {
  import opened Common
  import HostMatch
  import opened Installer
  import opened InstallRuns
  import opened Resolver
  import Sandboxes

  // ----- the gate -----

  datatype Verdict = NotConnect | UnknownSource | TooMany | NoCredential | HostDenied | Tunnel(cred: Outcome)

  /** The checks of handle in their order, before the connection is hijacked. */
  function Gate(connect: bool, known: bool, slot: bool, cred: Outcome, host: string): Verdict {
    if !connect then NotConnect
    else if !known then UnknownSource
    else if !slot then TooMany
    else if cred.Refused? then NoCredential
    else if !HostMatch.Allowed(host, cred.hosts) then HostDenied
    else Tunnel(cred)
  }

  /** For a server with a manifest, whatever its two reads return, a tunnel opens
      exactly for a CONNECT from a known source with a free slot and a grant, to a
      host that an entry of a manifest that was read covers. */
  lemma TunnelStaysInManifest(w: World, id: Sandboxes.Identity, connect: bool, known: bool, slot: bool, host: string)
    requires !w.manifest.Missing?
    ensures Gate(connect, known, slot, Resolve(w, id), host).Tunnel? <==>
              connect && known && slot && exists rec ::
                ReadBy(w, rec) && Capped(Resolve(w, id), rec) && HostMatch.Allowed(host, rec.hosts)
  {
    if Resolve(w, id).Granted? {
      ManifestCaps(w, id);
    }
  }

  /** A refusal names the first check that failed, so a slot is asked for only for known
      sources, and credentials only with a slot. */
  lemma RefusalNamesTheFirstFailure(connect: bool, known: bool, slot: bool, cred: Outcome, host: string)
    ensures var v := Gate(connect, known, slot, cred, host);
            && (v.NotConnect? <==> !connect)
            && (v.UnknownSource? <==> connect && !known)
            && (v.TooMany? <==> connect && known && !slot)
            && (v.NoCredential? <==> connect && known && slot && cred.Refused?)
            && (v.Tunnel? ==> v.cred == cred)
  {
  }

  // ----- egress and consent -----

  /** Some request of this sandbox gets a tunnel to `host`. */
  predicate Reaches(w: World, id: Sandboxes.Identity, host: string) {
    Gate(true, true, true, Resolve(w, id), host).Tunnel?
  }

  /** The tunnels of a sandbox stay within a list of hosts exactly when every entry of
      the manifest that capped its resolution is subsumed by that list. */
  lemma TunnelsWithinExactly(w: World, id: Sandboxes.Identity, rec: Record, hosts: seq<string>)
    requires Capped(Resolve(w, id), rec)
    ensures (forall host :: Reaches(w, id, host) ==> HostMatch.Allowed(host, hosts)) <==>
            forall i :: 0 <= i < |rec.hosts| ==> HostMatch.Subsumed(rec.hosts[i], hosts)
  {
    HostMatch.WithinExactly(rec.hosts, hosts);
    assert forall host :: Reaches(w, id, host) <==> HostMatch.Allowed(host, rec.hosts);
  }

  /** The spawn gate and the proxy disagree about an upgrade: after a completed API
      upgrade to another hash no new sandbox is spawned, but a running one whose
      resolution reads the new row reaches every host of the new manifest. It stays
      within the consented manifest exactly when the new one's entries are subsumed. */
  lemma RefusedUpgradeReachesRunning(db: Db, x: Exec, w: World, id: Sandboxes.Identity)
    requires WellFormed(x.op) && x.op.Install? && !x.op.auto && x.done >= 3
    requires id.server == x.op.m.name && id.server in db.manifests
    requires db.manifests[id.server].consented != "" && !db.manifests[id.server].NeedsReconsent()
    requires x.op.m.hash != db.manifests[id.server].hash
    requires id.server in After(db, x).manifests && w.manifest == Found(After(db, x).manifests[id.server])
    requires w.oauthManifest.Found? ==> w.oauthManifest == w.manifest
    requires Resolve(w, id).Granted?
    ensures !GatePasses(After(db, x), id.server)
    ensures forall host :: HostMatch.Allowed(host, x.op.m.hosts) <==> Reaches(w, id, host)
    ensures (forall host :: Reaches(w, id, host) ==> HostMatch.Allowed(host, db.manifests[id.server].hosts)) <==>
            forall i :: 0 <= i < |x.op.m.hosts| ==> HostMatch.Subsumed(x.op.m.hosts[i], db.manifests[id.server].hosts)
  {
    InstallGate(db, x);
    InstalledHosts(db, x);
    ManifestCaps(w, id);
    TunnelsWithinExactly(w, id, w.manifest.v, db.manifests[id.server].hosts);
  }

  lemma InstalledHosts(db: Db, x: Exec)
    requires WellFormed(x.op) && x.op.Install? && x.done >= 3
    ensures var n := x.op.m.name; n in After(db, x).manifests && After(db, x).manifests[n].hosts == x.op.m.hosts
  {
    ExecEffect(db, x, x.op.m.name);
    var rec := NewRecord(db, x.op.m, x.op.minted);
    assert PutManifest(x.op.m.name, rec) in Executed(db, x);
  }

  class ConnLimiter {
    const max: nat
    var count: map<Sandboxes.Identity, nat>

    /** Only identities with live tunnels are in the map, none above the cap. */
    ghost predicate Valid()
      reads this
    {
      forall id :: id in count ==> 1 <= count[id] <= max
    }

    function Live(id: Sandboxes.Identity): nat
      reads this
    {
      if id in count then count[id] else 0
    }

    constructor (max: nat)
      ensures Valid() && this.max == max && count == map[]
    {
      this.max := max;
      count := map[];
    }

    method Acquire(id: Sandboxes.Identity) returns (ok: bool)
      requires Valid()
      modifies this
      ensures Valid()
      ensures ok <==> old(Live(id)) < max
      ensures Live(id) == old(Live(id)) + (if ok then 1 else 0)
      ensures forall other :: other != id ==> Live(other) == old(Live(other))
    {
      var n := if id in count then count[id] else 0;
      if n >= max {
        return false;
      }
      count := count[id := n + 1];
      return true;
    }

    method Release(id: Sandboxes.Identity)
      requires Valid()
      modifies this
      ensures Valid()
      ensures Live(id) == if old(Live(id)) == 0 then 0 else old(Live(id)) - 1
      ensures forall other :: other != id ==> Live(other) == old(Live(other))
    {
      if id !in count || count[id] <= 1 {
        count := count - {id};
      } else {
        count := count[id := count[id] - 1];
      }
    }
  }

  // ----- injection -----

  predicate Contains(s: string, t: string) {
    exists i :: 0 <= i <= |s| && t <= s[i..]
  }

  /** strings.ReplaceAll for a non-empty pattern. */
  function ReplaceAll(s: string, pat: string, sub: string): string
    requires pat != ""
    decreases |s|
  {
    if s == "" then ""
    else if pat <= s then sub + ReplaceAll(s[|pat|..], pat, sub)
    else [s[0]] + ReplaceAll(s[1..], pat, sub)
  }

  /** The value the proxy writes: a function of the format and the secret only. */
  function Render(format: string, secret: string): string {
    if format == "" then secret else ReplaceAll(format, "{token}", secret)
  }

  /** The bytes of a header name, RFC 9110 section 5.6.2. */
  predicate IsTokenChar(c: char) {
    'a' <= c <= 'z' || 'A' <= c <= 'Z' || '0' <= c <= '9' || c in "!#$%&'*+-.^_`|~"
  }

  /** A letter is upper case at the start and after a hyphen, lower case elsewhere. */
  function Cased(s: string, upper: bool): string {
    if s == "" then ""
    else
      var c := s[0];
      var d := if upper && 'a' <= c <= 'z' then c - 'a' + 'A' else if upper then c else HostMatch.LowerChar(c);
      [d] + Cased(s[1..], c == '-')
  }

  /** The form under which net/http stores, finds and sets a header; a name that
      is not a token is left as it is. */
  function Canonical(name: string): string {
    if forall i :: 0 <= i < |name| ==> IsTokenChar(name[i]) then Cased(name, true) else name
  }

  /** A request's headers by canonical name. */
  type Headers = map<string, seq<string>>

  function Get(h: Headers, name: string): string {
    var key := Canonical(name);
    if key in h && |h[key]| > 0 then h[key][0] else ""
  }

  function Set(h: Headers, name: string, value: string): Headers { h[Canonical(name) := [value]] }

  function Inject(cred: Outcome, h: Headers): Headers
    requires cred.Granted?
  {
    if cred.header != "" && cred.placeholder != "" && Contains(Get(h, cred.header), cred.placeholder)
    then Set(h, cred.header, Render(cred.format, cred.secret))
    else h
  }

  predicate IsUpper(c: char) { 'A' <= c <= 'Z' }

  predicate IsLower(c: char) { 'a' <= c <= 'z' }

  /** The other case of a letter, or the character itself. */
  predicate SameLetter(c: char, d: char) {
    c == d || (IsLower(c) && d as int == c as int - 32) || (IsUpper(c) && d as int == c as int + 32)
  }

  lemma {:induction false} CasedExactly(s: string, upper: bool, i: nat)
    requires i < |s|
    ensures |Cased(s, upper)| == |s| && SameLetter(s[i], Cased(s, upper)[i])
    ensures if (i == 0 && upper) || (i > 0 && s[i - 1] == '-') then !IsLower(Cased(s, upper)[i])
            else !IsUpper(Cased(s, upper)[i])
    decreases |s|
  {
    if i > 0 {
      CasedExactly(s[1..], s[0] == '-', i - 1);
    } else if |s| > 1 {
      CasedExactly(s[1..], s[0] == '-', 0);
    }
  }

  /** The canonical name has the same letters, upper case exactly at the start and
      behind hyphens. */
  lemma CanonicalExactly(name: string, i: nat)
    requires i < |name| && forall j :: 0 <= j < |name| ==> IsTokenChar(name[j])
    ensures |Canonical(name)| == |name| && SameLetter(name[i], Canonical(name)[i])
    ensures if i == 0 || name[i - 1] == '-' then !IsLower(Canonical(name)[i]) else !IsUpper(Canonical(name)[i])
  {
    CasedExactly(name, true, i);
  }

  lemma {:induction false} CasedFolds(a: string, b: string, upper: bool)
    requires HostMatch.EqualFold(a, b)
    ensures Cased(a, upper) == Cased(b, upper)
    decreases |a|
  {
    assert |HostMatch.Lower(a)| == |HostMatch.Lower(b)|;
    if a != "" {
      assert HostMatch.LowerChar(a[0]) == HostMatch.Lower(a)[0] == HostMatch.Lower(b)[0] == HostMatch.LowerChar(b[0]);
      FoldsTail(a, b);
      CasedFolds(a[1..], b[1..], a[0] == '-');
    }
  }

  lemma FoldsTail(a: string, b: string)
    requires HostMatch.EqualFold(a, b) && a != "" && b != ""
    ensures HostMatch.EqualFold(a[1..], b[1..])
  {
    assert HostMatch.Lower(a[1..]) == HostMatch.Lower(a)[1..];
    assert HostMatch.Lower(b[1..]) == HostMatch.Lower(b)[1..];
  }

  lemma TokenFolds(a: string, b: string, i: nat)
    requires HostMatch.EqualFold(a, b) && i < |a|
    ensures i < |b| && (IsTokenChar(a[i]) <==> IsTokenChar(b[i]))
  {
    assert |HostMatch.Lower(a)| == |HostMatch.Lower(b)|;
    assert HostMatch.LowerChar(a[i]) == HostMatch.Lower(a)[i] == HostMatch.Lower(b)[i] == HostMatch.LowerChar(b[i]);
  }

  /** How a manifest spells its inject header makes no difference: spellings that
      differ in letter case only inject alike. */
  lemma HeaderCaseIsIrrelevant(cred: Outcome, header: string, h: Headers)
    requires cred.Granted? && HostMatch.EqualFold(cred.header, header)
    requires forall i :: 0 <= i < |header| ==> IsTokenChar(header[i])
    ensures Inject(cred, h) == Inject(cred.(header := header), h)
  {
    assert |HostMatch.Lower(cred.header)| == |HostMatch.Lower(header)|;
    forall i | 0 <= i < |cred.header| ensures IsTokenChar(cred.header[i]) {
      TokenFolds(cred.header, header, i);
    }
    CasedFolds(cred.header, header, true);
  }

  /** The loop of pump over the requests of one connection. */
  method Pump(cred: Outcome, requests: seq<Headers>) returns (forwarded: seq<Headers>)
    requires cred.Granted?
    ensures |forwarded| == |requests|
    ensures forall i :: 0 <= i < |requests| ==> forwarded[i] == Inject(cred, requests[i])
  {
    forwarded := [];
    for i := 0 to |requests|
      invariant |forwarded| == i
      invariant forall j :: 0 <= j < i ==> forwarded[j] == Inject(cred, requests[j])
    {
      var h := requests[i];
      if cred.header != "" && cred.placeholder != "" {
        var v := Get(h, cred.header);
        if Contains(v, cred.placeholder) {
          var injected := cred.secret;
          if cred.format != "" {
            injected := ReplaceAll(cred.format, "{token}", cred.secret);
          }
          h := Set(h, cred.header, injected);
        }
      }
      forwarded := forwarded + [h];
    }
  }

  /** The sandbox's own value of the header contains the placeholder. */
  ghost predicate Asks(cred: Outcome, h: Headers, name: string)
    requires cred.Granted?
  {
    && cred.header != "" && cred.placeholder != "" && name == Canonical(cred.header)
    && name in h && |h[name]| > 0 && exists x, y :: h[name][0] == x + cred.placeholder + y
  }

  lemma ContainsExactly(s: string, t: string)
    ensures Contains(s, t) <==> exists x, y :: s == x + t + y
  {
    if Contains(s, t) {
      var i :| 0 <= i <= |s| && t <= s[i..];
      assert s == s[..i] + t + s[i + |t|..];
    }
    if x, y :| s == x + t + y {
      assert t <= s[|x|..];
    }
  }

  /** A header is rewritten exactly when it is the inject header and the sandbox's value
      contains the placeholder; then it is the rendered secret and nothing of the
      sandbox's text. Every other header passes as it is. */
  lemma RewrittenExactly(cred: Outcome, h: Headers, name: string)
    requires cred.Granted?
    ensures var out := Inject(cred, h);
            if Asks(cred, h, name) then name in out && out[name] == [Render(cred.format, cred.secret)]
            else (name in out <==> name in h) && (name in h ==> out[name] == h[name])
  {
    ContainsExactly(Get(h, cred.header), cred.placeholder);
    if cred.placeholder != "" && Get(h, cred.header) == "" {
      NothingInside(cred.placeholder);
    }
  }

  lemma NothingInside(t: string)
    requires t != ""
    ensures !Contains("", t)
  {
  }

  /** Whatever a sandbox sends through a tunnel of a manifest server, a header
      forwarded rewritten is the inject header of a manifest that was read, in that
      manifest's format, and the secret in it is the acting tenant's. */
  lemma ForwardedHeaders(w: World, id: Sandboxes.Identity, h: Headers, name: string)
    requires !w.manifest.Missing? && Resolve(w, id).Granted?
    ensures var cred := Resolve(w, id);
            var out := Inject(cred, h);
            if !Asks(cred, h, name) then (name in out <==> name in h) && (name in h ==> out[name] == h[name])
            else exists rec :: ReadBy(w, rec) && Injected(w, id.tenant, rec, cred, out, name)
  {
    var cred := Resolve(w, id);
    RewrittenExactly(cred, h, name);
    ManifestCaps(w, id);
    var rec :| ReadBy(w, rec) && Capped(cred, rec);
    if Asks(cred, h, name) {
      if cred.secret != "" {
        SecretIsTheTenants(w, id);
      }
      assert Injected(w, id.tenant, rec, cred, Inject(cred, h), name);
    }
  }

  ghost predicate Injected(w: World, tenant: string, rec: Record, cred: Outcome, out: Headers, name: string)
    requires cred.Granted?
  {
    && |rec.injections| > 0 && name == Canonical(rec.injections[0].cred.header) && name in out
    && out[name] == [Render(rec.injections[0].cred.format, cred.secret)]
    && cred.placeholder == rec.injections[0].placeholder
    && (cred.secret != "" ==> SecretOf(w, tenant, cred.secret))
  }

  /** Text in front of a token in the format is kept as it is and the token becomes the
      secret, whatever the secret contains; the rest follows the same rule. */
  lemma {:induction false} TokenReplaced(pre: string, rest: string, secret: string)
    requires '{' !in pre
    ensures ReplaceAll(pre + "{token}" + rest, "{token}", secret) == pre + secret + ReplaceAll(rest, "{token}", secret)
    decreases |pre|
  {
    if pre == "" {
      assert pre + "{token}" + rest == "{token}" + rest;
      TokenFirst(rest, secret);
    } else {
      TokenReplaced(pre[1..], rest, secret);
      HeadFirst(pre, "{token}", rest);
      PlainFirst(pre[0], pre[1..] + "{token}" + rest, secret);
      HeadFirst(pre, secret, ReplaceAll(rest, "{token}", secret));
    }
  }

  /** "Bearer {token}" becomes "Bearer " and the secret; no format is the bare secret. */
  lemma RenderKeepsText(pre: string, post: string, secret: string)
    requires '{' !in pre && '{' !in post
    ensures Render(pre + "{token}" + post, secret) == pre + secret + post
    ensures Render("", secret) == secret
  {
    TokenReplaced(pre, post, secret);
    NoTokenInside(post, secret);
  }

  lemma HeadFirst(pre: string, mid: string, post: string)
    requires pre != ""
    ensures pre + mid + post == [pre[0]] + (pre[1..] + mid + post)
  {
  }

  lemma TokenFirst(rest: string, secret: string)
    ensures ReplaceAll("{token}" + rest, "{token}", secret) == secret + ReplaceAll(rest, "{token}", secret)
  {
    var f := "{token}" + rest;
    assert "{token}" <= f && f[7..] == rest;
  }

  lemma PlainFirst(c: char, rest: string, secret: string)
    requires c != '{'
    ensures ReplaceAll([c] + rest, "{token}", secret) == [c] + ReplaceAll(rest, "{token}", secret)
  {
    assert ([c] + rest)[0] == c && ([c] + rest)[1..] == rest;
  }

  lemma {:induction false} NoTokenInside(s: string, secret: string)
    requires '{' !in s
    ensures ReplaceAll(s, "{token}", secret) == s
    decreases |s|
  {
    if s != "" {
      assert s[0] != '{';
      NoTokenInside(s[1..], secret);
      assert s == [s[0]] + s[1..];
    }
  }

  // ----- the sentinel given at spawn -----

  /** What a read of the manifest may return during a run: a row of one of the
      run's states, whose first credential still has the given id. */
  ghost predicate SeenDuring(r: Read<Record>, db: Db, xs: seq<Exec>, name: string, credId: string)
    requires Good(xs)
  {
    r.Found? ==> exists k: nat :: k <= |xs| && RowAt(db, xs[..k], name, r.v) && FirstIs(r.v, credId)
  }

  ghost predicate RowAt(db: Db, xs: seq<Exec>, name: string, rec: Record)
    requires Good(xs)
  {
    name in End(db, xs).manifests && End(db, xs).manifests[name] == rec
  }

  predicate FirstIs(rec: Record, credId: string) { |rec.injections| > 0 && rec.injections[0].cred.id == credId }

  ghost predicate KeepsCredential(db: Db, xs: seq<Exec>, name: string, credId: string)
    requires Good(xs)
  {
    && (forall j: nat :: j < |xs| ==> !RemovesRow(db, xs, j, name))
    && (forall j :: 0 <= j < |xs| && xs[j].op.Install? && xs[j].op.m.name == name ==> Lists(xs[j].op.m, credId))
  }

  lemma KeepsCredentialPrefix(db: Db, xs: seq<Exec>, k: nat, name: string, credId: string)
    requires Good(xs) && k <= |xs| && KeepsCredential(db, xs, name, credId)
    ensures KeepsCredential(db, xs[..k], name, credId)
  {
    forall j: nat | j < k ensures !RemovesRow(db, xs[..k], j, name) {
      assert xs[..k][..j] == xs[..j];
      assert !RemovesRow(db, xs, j, name);
    }
  }

  /** A row seen at any point of the run carries the sentinel given at spawn. */
  lemma SeenSentinel(r: Read<Record>, db: Db, xs: seq<Exec>, name: string, credId: string)
    requires Good(xs) && GatePasses(db, name) && r.Found?
    requires var inj := db.manifests[name].injections;
             |inj| > 0 && UniqueIds(inj) && inj[0].placeholder != "" && inj[0].cred.id == credId
    requires KeepsCredential(db, xs, name, credId) && SeenDuring(r, db, xs, name, credId)
    ensures |r.v.injections| > 0 && SpawnSentinel(db, name) == Some(r.v.injections[0].placeholder)
  {
    var k: nat :| k <= |xs| && RowAt(db, xs[..k], name, r.v) && FirstIs(r.v, credId);
    KeepsCredentialPrefix(db, xs, k, name, credId);
    SpawnSentinelStaysCurrent(db, xs[..k], name);
  }

  /** Through any reinstalls and upgrades that keep the first credential's id, and
      wherever in them the two reads of a resolution fall or fail, the sentinel a
      sandbox received at spawn is the one the resolution looks for, so a request
      carrying it in the inject header is rewritten. */
  lemma SentinelStillTriggers(db: Db, xs: seq<Exec>, w: World, id: Sandboxes.Identity, credId: string, h: Headers)
    requires Good(xs) && GatePasses(db, id.server)
    requires var inj := db.manifests[id.server].injections;
             |inj| > 0 && UniqueIds(inj) && inj[0].placeholder != "" && inj[0].cred.id == credId
    requires KeepsCredential(db, xs, id.server, credId)
    requires SeenDuring(w.manifest, db, xs, id.server, credId) && !w.manifest.Missing?
    requires SeenDuring(w.oauthManifest, db, xs, id.server, credId)
    requires Resolve(w, id).Granted? && Resolve(w, id).header != ""
    requires Contains(Get(h, Resolve(w, id).header), SpawnSentinel(db, id.server).value)
    ensures SpawnSentinel(db, id.server) == Some(Resolve(w, id).placeholder)
    ensures var cred := Resolve(w, id); Get(Inject(cred, h), cred.header) == Render(cred.format, cred.secret)
  {
    ManifestCaps(w, id);
    if w.manifest.Found? {
      SeenSentinel(w.manifest, db, xs, id.server, credId);
    }
    if w.oauthManifest.Found? {
      SeenSentinel(w.oauthManifest, db, xs, id.server, credId);
    }
    SentinelIsNonEmpty(db, id.server);
  }

  lemma SentinelIsNonEmpty(db: Db, name: string)
    requires GatePasses(db, name)
    ensures SpawnSentinel(db, name).value != ""
  {
  }

  /** A server without a manifest: its sandboxes are given the default sentinel, so a
      credential row with the default placeholder is injected into a request that
      carries the sentinel in the row's header, in the row's own format. */
  lemma LegacySentinelTriggers(db: Db, w: World, id: Sandboxes.Identity, h: Headers)
    requires id.server !in db.manifests && w.manifest.Missing? && !w.oauthManifest.Found?
    requires Resolve(w, id).Granted? && Resolve(w, id).header != "" && Resolve(w, id).placeholder == "PLACEHOLDER"
    requires Contains(Get(h, Resolve(w, id).header), "PLACEHOLDER")
    ensures SpawnSentinel(db, id.server) == Some("PLACEHOLDER")
    ensures GrantsTheRow(w, id)
    ensures var cred := Resolve(w, id); Get(Inject(cred, h), cred.header) == Render(cred.format, cred.secret)
  {
    ManifestCaps(w, id);
  }
}
