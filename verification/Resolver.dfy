/** Decimal tenants: strconv.FormatInt and strconv.ParseInt in base 10, as used
    by spawnProfile, store.UserTenant and resolveTenant. */
module Tenants {
  import opened Common

  const MAX_INT64: int := 0x7fff_ffff_ffff_ffff

  predicate IsInt64(n: int) { -MAX_INT64 - 1 <= n <= MAX_INT64 }

  predicate IsDigit(c: char) { '0' <= c <= '9' }

  function Digits(n: nat): (s: string)
    ensures s != "" && forall i :: 0 <= i < |s| ==> IsDigit(s[i])
  {
    var d := ('0' as int + n % 10) as char;
    if n < 10 then [d] else Digits(n / 10) + [d]
  }

  function Value(s: string): nat
    requires forall i :: 0 <= i < |s| ==> IsDigit(s[i])
  {
    if s == "" then 0
    else
      assert IsDigit(s[|s| - 1]);
      10 * Value(s[..|s| - 1]) + (s[|s| - 1] as int - '0' as int)
  }

  lemma {:induction false} ValueOfDigits(n: nat)
    ensures Value(Digits(n)) == n
  {
    if n >= 10 {
      ValueOfDigits(n / 10);
      assert Digits(n)[..|Digits(n)| - 1] == Digits(n / 10);
    }
  }

  function FormatInt(n: int): string { if n < 0 then "-" + Digits(-n) else Digits(n) }

  /** An optional sign, at least one digit, and a value that fits in 64 bits. */
  function ParseInt(s: string): Option<int> {
    var signed := s != "" && (s[0] == '-' || s[0] == '+');
    var body := if signed then s[1..] else s;
    if body == "" || exists i :: 0 <= i < |body| && !IsDigit(body[i]) then None
    else
      var v: int := Value(body);
      var n := if signed && s[0] == '-' then -v else v;
      if IsInt64(n) then Some(n) else None
  }

  lemma ParseFormat(n: int)
    requires IsInt64(n)
    ensures ParseInt(FormatInt(n)) == Some(n)
  {
    if n < 0 {
      ParseNegative(n);
    } else {
      ParseNatural(n);
    }
  }

  lemma ParseNatural(n: nat)
    requires n <= MAX_INT64
    ensures ParseInt(Digits(n)) == Some(n)
  {
    ValueOfDigits(n);
    assert IsDigit(Digits(n)[0]);
  }

  lemma ParseNegative(n: int)
    requires -MAX_INT64 - 1 <= n < 0
    ensures ParseInt("-" + Digits(-n)) == Some(n)
  {
    ValueOfDigits(-n);
    assert ("-" + Digits(-n))[1..] == Digits(-n);
  }
}

/** The credential decision of internal/gateway/resolver.go. */
module Resolver {
  import opened Common
  import opened Tenants
  import opened Installer
  import Sandboxes

  /** A store read: a row, no row, or a failure of the store. */
  datatype Read<+T> = Found(v: T) | Missing | Broken

  datatype CredentialRow = CredentialRow(key: string, header: string, format: string, placeholder: string,
                                         hosts: seq<string>)

  datatype TokenRead = Fresh(token: string) | NotConnected | TokenError

  /** Everything one Resolve call may read. The manifest is read once by the
      OAuth branch and once after it, and the two reads may differ. */
  datatype World = World(
    broker: bool,
    owner: int -> Option<int>,                 // GetProfileByID
    oauthManifest: Read<Record>,
    manifest: Read<Record>,
    token: (int, string) -> TokenRead,         // EnsureFreshToken
    credential: string -> Read<CredentialRow>, // GetCredential for this server
    open: string -> Option<string>)            // Vault.Decrypt

  datatype Outcome =
    | Granted(secret: string, header: string, format: string, placeholder: string, hosts: seq<string>)
    | Refused

  function ResolveTenant(w: World, tenant: string): string {
    var pid := ParseInt(tenant);
    if pid.Some? && w.owner(pid.value).Some? then FormatInt(w.owner(pid.value).value) else tenant
  }

  function Bare(rec: Record): Outcome { Granted("", "", "", "", rec.hosts) }

  /** The first injection's header and format, or nothing. */
  function WithSecret(rec: Record, secret: string): Outcome {
    if |rec.injections| == 0 then Granted(secret, "", "", "", rec.hosts)
    else
      var inj := rec.injections[0];
      Granted(secret, inj.cred.header, inj.cred.format, inj.placeholder, rec.hosts)
  }

  /** The OAuth branch: None means fall through to the stored credential. */
  function OAuthBranch(w: World, tenant: string): Option<Outcome> {
    if !w.broker || !w.oauthManifest.Found? then None
    else
      var rec := w.oauthManifest.v;
      if |rec.injections| == 0 || rec.injections[0].cred.kind != "oauth2" then None
      else
        var user := ParseInt(tenant);
        if user.None? then None
        else
          var cred := rec.injections[0].cred;
          match w.token(user.value, if cred.vendor == "" then cred.provider else cred.vendor)
          case Fresh(t) => Some(WithSecret(rec, t))
          case NotConnected => Some(Bare(rec))
          case TokenError => Some(Refused)
  }

  function StoredBranch(w: World, tenant: string): Outcome {
    match w.credential(tenant)
    case Broken => Refused
    case Missing => if w.manifest.Found? then Bare(w.manifest.v) else Refused
    case Found(row) =>
      var secret := w.open(row.key);
      if secret.None? then Refused
      else
        match w.manifest
        case Missing => Granted(secret.value, row.header, row.format, row.placeholder, row.hosts)
        case Broken => Refused
        case Found(rec) => WithSecret(rec, secret.value)
  }

  function Resolve(w: World, id: Sandboxes.Identity): Outcome {
    var tenant := ResolveTenant(w, id.tenant);
    var o := OAuthBranch(w, tenant);
    if o.Some? then o.value else StoredBranch(w, tenant)
  }

  // ----- the manifest is the cap -----

  /** The outcome stays within one manifest record. */
  ghost predicate Capped(r: Outcome, rec: Record) {
    && r.Granted? && r.hosts == rec.hosts
    && (|| (r.header == "" && r.format == "" && r.placeholder == "")
        || (|rec.injections| > 0 && r.header == rec.injections[0].cred.header
            && r.format == rec.injections[0].cred.format && r.placeholder == rec.injections[0].placeholder))
  }

  /** One of the two manifest reads found `rec`. */
  ghost predicate ReadBy(w: World, rec: Record) {
    w.manifest == Found(rec) || w.oauthManifest == Found(rec)
  }

  /** The stored credential row is granted as it is. */
  ghost predicate GrantsTheRow(w: World, id: Sandboxes.Identity) {
    var c := w.credential(ResolveTenant(w, id.tenant));
    && c.Found? && w.open(c.v.key).Some?
    && Resolve(w, id) == Granted(w.open(c.v.key).value, c.v.header, c.v.format, c.v.placeholder, c.v.hosts)
  }

  /** Whatever the two reads of the manifest return, a grant has exactly the hosts
      of a manifest that was read and at most its first injection, whatever the
      credential row says; the row itself is granted only if the second read
      found that there is no manifest. */
  lemma ManifestCaps(w: World, id: Sandboxes.Identity)
    requires Resolve(w, id).Granted?
    ensures (exists rec :: ReadBy(w, rec) && Capped(Resolve(w, id), rec))
          || (w.manifest.Missing? && GrantsTheRow(w, id))
  {
    var r := Resolve(w, id);
    if OAuthBranch(w, ResolveTenant(w, id.tenant)).Some? {
      assert ReadBy(w, w.oauthManifest.v) && Capped(r, w.oauthManifest.v);
    } else if w.manifest.Found? {
      assert ReadBy(w, w.manifest.v) && Capped(r, w.manifest.v);
    }
  }

  // ----- the secret -----

  /** The tenant whose credentials are looked up: the owner, in decimal, of the profile
      the tenant names, or the tenant itself. */
  ghost predicate ActsAs(w: World, tenant: string, u: string) {
    && (forall p :: ParseInt(tenant) == Some(p) && w.owner(p).Some? ==> u == FormatInt(w.owner(p).value))
    && (ParseInt(tenant).None? || w.owner(ParseInt(tenant).value).None? ==> u == tenant)
  }

  /** The first injection of the first manifest read, if a numeric user's vendor token is to fill it. */
  ghost predicate TokenInjection(w: World, u: string, cred: Credential) {
    && w.broker && ParseInt(u).Some? && w.oauthManifest.Found?
    && |w.oauthManifest.v.injections| > 0 && w.oauthManifest.v.injections[0].cred == cred && cred.kind == "oauth2"
  }

  /** The vendor's answer; an injection without a vendor names its provider. */
  ghost predicate VendorSays(w: World, u: string, cred: Credential, r: TokenRead) {
    && ParseInt(u).Some?
    && (cred.vendor != "" ==> w.token(ParseInt(u).value, cred.vendor) == r)
    && (cred.vendor == "" ==> w.token(ParseInt(u).value, cred.provider) == r)
  }

  /** The manifest's first injection and hosts, with this secret. */
  ghost predicate Carries(r: Outcome, rec: Record, secret: string) {
    && r.Granted? && r.secret == secret && r.hosts == rec.hosts
    && (|rec.injections| > 0 ==>
          && r.header == rec.injections[0].cred.header && r.format == rec.injections[0].cred.format
          && r.placeholder == rec.injections[0].placeholder)
    && (|rec.injections| == 0 ==> r.header == "" && r.format == "" && r.placeholder == "")
  }

  /** The hosts only. */
  ghost predicate Sealed(r: Outcome, rec: Record) {
    r.Granted? && r.hosts == rec.hosts && r.secret == "" && r.header == "" && r.format == "" && r.placeholder == ""
  }

  /** With a token injection the vendor's answer decides: a token is granted with the
      injection, a missing connection leaves the hosts, an error refuses. */
  lemma TokenDecides(w: World, id: Sandboxes.Identity, u: string, cred: Credential, answer: TokenRead)
    requires ActsAs(w, id.tenant, u) && TokenInjection(w, u, cred) && VendorSays(w, u, cred, answer)
    ensures answer.Fresh? ==> Carries(Resolve(w, id), w.oauthManifest.v, answer.token)
    ensures answer.NotConnected? ==> Sealed(Resolve(w, id), w.oauthManifest.v)
    ensures answer.TokenError? ==> Resolve(w, id).Refused?
  {
    assert ResolveTenant(w, id.tenant) == u;
  }

  /** Without one the stored credential does: its decrypted key is granted with the
      manifest's injection, or with its own metadata if there is no manifest; a missing
      row leaves the manifest's hosts; anything else refuses. */
  lemma StoredCredentialDecides(w: World, id: Sandboxes.Identity, u: string)
    requires ActsAs(w, id.tenant, u) && forall cred :: !TokenInjection(w, u, cred)
    ensures var row, r := w.credential(u), Resolve(w, id);
            && (r.Refused? <==>
                  || row.Broken?
                  || (row.Missing? && !w.manifest.Found?)
                  || (row.Found? && (w.open(row.v.key).None? || w.manifest.Broken?)))
            && (row.Missing? && w.manifest.Found? ==> Sealed(r, w.manifest.v))
            && (row.Found? && r.Granted? ==> w.open(row.v.key) == Some(r.secret))
            && (row.Found? && r.Granted? && w.manifest.Found? ==> Carries(r, w.manifest.v, r.secret))
            && (row.Found? && r.Granted? && w.manifest.Missing? ==> GrantsTheRow(w, id))
  {
    assert ResolveTenant(w, id.tenant) == u;
    if OAuthBranch(w, u).Some? {
      assert TokenInjection(w, u, w.oauthManifest.v.injections[0].cred);
    }
  }

  /** The secret is the acting tenant's: a fresh token of that user's vendor connection,
      or the decrypted key of that tenant's credential row. */
  ghost predicate SecretOf(w: World, tenant: string, secret: string) {
    exists u :: ActsAs(w, tenant, u) &&
      (|| (exists cred :: TokenInjection(w, u, cred) && VendorSays(w, u, cred, Fresh(secret)))
       || (w.credential(u).Found? && w.open(w.credential(u).v.key) == Some(secret)))
  }

  lemma SecretIsTheTenants(w: World, id: Sandboxes.Identity)
    requires Resolve(w, id).Granted? && Resolve(w, id).secret != ""
    ensures SecretOf(w, id.tenant, Resolve(w, id).secret)
  {
    var u, secret := ResolveTenant(w, id.tenant), Resolve(w, id).secret;
    assert ActsAs(w, id.tenant, u);
    if OAuthBranch(w, u).Some? {
      var cred := w.oauthManifest.v.injections[0].cred;
      assert TokenInjection(w, u, cred) && VendorSays(w, u, cred, Fresh(secret));
    }
  }

  /** `v` differs from `w` at most in the header, format, placeholder and hosts
      of credential rows. */
  ghost predicate SameButRowMetadata(v: World, w: World) {
    && v == w.(credential := v.credential)
    && (forall t: string ::
          match w.credential(t)
          case Found(row) => v.credential(t).Found? && v.credential(t).v.key == row.key
          case Missing => v.credential(t) == Missing
          case Broken => v.credential(t) == Broken)
  }

  /** Non-interference: unless there is no manifest, the metadata of credential rows has no
      effect on the decision. */
  lemma RowMetadataIsIgnored(v: World, w: World, id: Sandboxes.Identity)
    requires SameButRowMetadata(v, w) && !w.manifest.Missing?
    ensures Resolve(v, id) == Resolve(w, id)
  {
    var t := ResolveTenant(w, id.tenant);
    assert OAuthBranch(v, t) == OAuthBranch(w, t);
    match w.credential(t) {
      case Found(row) =>
      case Missing =>
      case Broken =>
    }
  }

  /** The user whose credentials a profile's sandboxes get: its owner or, if the
      profile cannot be read, whoever has the profile's id as user id. */
  function CreditedUser(w: World, p: int): int { if w.owner(p).Some? then w.owner(p).value else p }

  /** A sandbox spawned for a profile, whose tenant is the profile id in decimal, is
      resolved with the credited user's credentials, and with the same ones for
      every profile credited to that user. That user is the owner exactly when the
      profile can be read, or when its id happens to be its owner's. */
  lemma ProfileUsesItsOwnersCredentials(w: World, server: string, p: int, owner: int)
    requires IsInt64(p)
    ensures ResolveTenant(w, FormatInt(p)) == FormatInt(CreditedUser(w, p))
    ensures w.owner(p) in {None, Some(owner)} ==> (CreditedUser(w, p) == owner <==> w.owner(p).Some? || p == owner)
    ensures forall q :: IsInt64(q) && CreditedUser(w, q) == CreditedUser(w, p) ==>
      Resolve(w, Sandboxes.Identity(server, FormatInt(q))) == Resolve(w, Sandboxes.Identity(server, FormatInt(p)))
  {
    ParseFormat(p);
    forall q | IsInt64(q) && CreditedUser(w, q) == CreditedUser(w, p)
      ensures ResolveTenant(w, FormatInt(q)) == ResolveTenant(w, FormatInt(p))
    {
      ParseFormat(q);
    }
  }
}
