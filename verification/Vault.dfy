/** Envelope encryption of internal/vault/vault.go: the box layout, the cursor that
    parses it, and the data key wiped in place. The cipher is a parameter. */
module Vault {
  import opened Common

  type Byte = b: int | 0 <= b < 256
  type Bytes = seq<Byte>

  const VERSION: Byte := 1
  const KEY_SIZE := 32
  const NONCE_SIZE := 24
  const TAG_SIZE := 16
  const TWO32 := 0x1_0000_0000

  datatype Aead = Aead(seal: (Bytes, Bytes, Bytes) -> Bytes, open: (Bytes, Bytes, Bytes) -> Option<Bytes>)

  /** Opening accepts exactly what sealing produced, and a seal adds a tag. */
  ghost predicate Lawful(a: Aead) {
    forall k, n, p :: |k| == KEY_SIZE && |n| == NONCE_SIZE ==>
      && |a.seal(k, n, p)| == |p| + TAG_SIZE
      && forall c :: a.open(k, n, c) == Some(p) <==> c == a.seal(k, n, p)
  }

  // ----- the layout -----

  /** The bytes of a 32-bit value, most significant first. */
  function PutUint32(x: nat): (r: Bytes)
    ensures |r| == 4
  {
    var h := x / 256;
    var hh := h / 256;
    [hh / 256 % 256, hh % 256, h % 256, x % 256]
  }

  function Uint32(b: Bytes): nat
    requires |b| == 4
  {
    Shifted(Shifted(Shifted(b[0], b[1]), b[2]), b[3])
  }

  function Shifted(high: nat, low: Byte): nat { 256 * high + low }

  lemma ShiftedDigits(high: nat, low: Byte)
    ensures Shifted(high, low) / 256 == high && Shifted(high, low) % 256 == low
  {
  }

  lemma DecodeEncoded(x: nat)
    requires x < TWO32
    ensures Uint32(PutUint32(x)) == x
  {
    var h := x / 256;
    var hh := h / 256;
    var top := hh / 256;
    Smaller(x, 0x100_0000);
    Smaller(h, 0x1_0000);
    Smaller(hh, 0x100);
    assert top % 256 == top;
    Rejoined(hh);
    Rejoined(h);
    Rejoined(x);
  }

  lemma Rejoined(x: nat)
    ensures Shifted(x / 256, x % 256) == x
  {
  }

  lemma Smaller(x: nat, bound: nat)
    requires x < 256 * bound
    ensures x / 256 < bound
  {
  }

  lemma Bigger(high: nat, low: Byte, bound: nat)
    requires high < bound
    ensures Shifted(high, low) < 256 * bound
  {
  }

  lemma EncodeDecoded(b: Bytes)
    requires |b| == 4
    ensures Uint32(b) < TWO32 && PutUint32(Uint32(b)) == b
  {
    var hh := Shifted(b[0], b[1]);
    var h := Shifted(hh, b[2]);
    ShiftedDigits(b[0], b[1]);
    ShiftedDigits(hh, b[2]);
    ShiftedDigits(h, b[3]);
    Bigger(b[0], b[1], 0x100);
    Bigger(hh, b[2], 0x1_0000);
    Bigger(h, b[3], 0x100_0000);
    SmallDigit(b[0]);
  }

  lemma SmallDigit(b: Byte)
    ensures b % 256 == b
  {
  }

  datatype Envelope = Envelope(kekNonce: Bytes, wrapped: Bytes, dekNonce: Bytes, sealed: Bytes)

  predicate WellFormed(e: Envelope) {
    |e.kekNonce| == NONCE_SIZE && |e.wrapped| < TWO32 && |e.dekNonce| == NONCE_SIZE
  }

  function Serialize(e: Envelope): Bytes {
    [VERSION] + e.kekNonce + PutUint32(|e.wrapped|) + e.wrapped + e.dekNonce + e.sealed
  }

  /** The fields of a box that passes the version and length checks. */
  function Parse(box: Bytes): Option<Envelope> {
    if |box| < 29 || box[0] != VERSION then None
    else
      var wlen := Uint32(box[25..29]);
      if 29 + wlen + NONCE_SIZE > |box| then None
      else Some(Envelope(box[1..25], box[29..29 + wlen], box[29 + wlen..53 + wlen], box[53 + wlen..]))
  }

  lemma ParseSerialize(e: Envelope)
    requires WellFormed(e)
    ensures Parse(Serialize(e)) == Some(e)
    ensures LaidOut(Serialize(e), e)
  {
    var box, n := Serialize(e), |e.wrapped|;
    DecodeEncoded(n);
    LayoutCuts([VERSION], e.kekNonce, PutUint32(n), e.wrapped, e.dekNonce, e.sealed);
    LengthField(n);
    assert box[0] == VERSION;
    assert forall i :: 0 <= i < 4 ==> box[25 + i] == box[25..29][i];
  }

  /** The documented layout: a version byte 1, a 24-byte nonce, the length of the wrapped
      key in four bytes, most significant first, the wrapped key, a 24-byte nonce, the rest. */
  ghost predicate LaidOut(box: Bytes, e: Envelope) {
    var n := |e.wrapped|;
    && |box| == 1 + 24 + 4 + n + 24 + |e.sealed|
    && box[0] == 1 && box[1..25] == e.kekNonce && box[29..29 + n] == e.wrapped
    && box[29 + n..53 + n] == e.dekNonce && box[53 + n..] == e.sealed
    && BigEndian(box[25], box[26], box[27], box[28]) == n
  }

  function BigEndian(b0: int, b1: int, b2: int, b3: int): int {
    0x100_0000 * b0 + 0x1_0000 * b1 + 0x100 * b2 + b3
  }

  lemma LengthField(n: nat)
    requires n < TWO32
    ensures var l := PutUint32(n); BigEndian(l[0], l[1], l[2], l[3]) == n
  {
    DecodeEncoded(n);
    Uint32IsBigEndian(PutUint32(n));
  }

  lemma Uint32IsBigEndian(l: Bytes)
    requires |l| == 4
    ensures Uint32(l) == BigEndian(l[0], l[1], l[2], l[3])
  {
  }

  /** What a box holds: the data key sealed under the master key, and the plaintext
      sealed under the data key, so 117 bytes more than the plaintext. */
  lemma BoxFields(a: Aead, kek: Bytes, dek: Bytes, kekNonce: Bytes, dekNonce: Bytes, plaintext: Bytes)
    requires Lawful(a) && Fits(kek, dek, kekNonce, dekNonce)
    ensures var e := Envelope(kekNonce, a.seal(kek, kekNonce, dek), dekNonce, a.seal(dek, dekNonce, plaintext));
            LaidOut(Box(a, kek, dek, kekNonce, dekNonce, plaintext), e)
    ensures |Box(a, kek, dek, kekNonce, dekNonce, plaintext)| == |plaintext| + 117
  {
    var wrapped, sealed := a.seal(kek, kekNonce, dek), a.seal(dek, dekNonce, plaintext);
    assert |wrapped| == KEY_SIZE + TAG_SIZE && |sealed| == |plaintext| + TAG_SIZE;
    ParseSerialize(Envelope(kekNonce, wrapped, dekNonce, sealed));
  }

  lemma LayoutCuts(v: Bytes, k: Bytes, l: Bytes, w: Bytes, d: Bytes, s: Bytes)
    requires |v| == 1 && |k| == |d| == NONCE_SIZE && |l| == 4
    ensures var box, n := v + k + l + w + d + s, |w|;
            && box[1..25] == k && box[25..29] == l && box[29..29 + n] == w
            && box[29 + n..53 + n] == d && box[53 + n..] == s
  {
  }

  /** The layout is unambiguous: an accepted box is the serialisation of its fields. */
  lemma SerializeParse(box: Bytes)
    requires Parse(box).Some?
    ensures WellFormed(Parse(box).value) && Serialize(Parse(box).value) == box
  {
    var e := Parse(box).value;
    var n := Uint32(box[25..29]);
    EncodeDecoded(box[25..29]);
    assert |e.wrapped| == n && [VERSION] == box[..1];
    CutsRejoin(box, n);
  }

  lemma CutsRejoin(box: Bytes, n: nat)
    requires 53 + n <= |box|
    ensures box == box[..1] + box[1..25] + box[25..29] + box[29..29 + n] + box[29 + n..53 + n] + box[53 + n..]
  {
    assert box[..25] == box[..1] + box[1..25];
    assert box[..29] == box[..25] + box[25..29];
    assert box[..29 + n] == box[..29] + box[29..29 + n];
    assert box[..53 + n] == box[..29 + n] + box[29 + n..53 + n];
    assert box == box[..53 + n] + box[53 + n..];
  }

  /** The cursor over a box; the slices it takes never leave it. */
  method ParseBox(box: Bytes) returns (e: Option<Envelope>)
    ensures e == Parse(box)
  {
    if |box| < 1 + NONCE_SIZE + 4 || box[0] != VERSION {
      return None;
    }
    var p := 1;
    var kekNonce := box[p..p + NONCE_SIZE];
    p := p + NONCE_SIZE;
    var prefix := box[p..p + 4];
    assert prefix == box[25..29];
    var wlen := Uint32(prefix);
    p := p + 4;
    if p + wlen + NONCE_SIZE > |box| {
      return None;
    }
    var wrapped := box[p..p + wlen];
    p := p + wlen;
    var dekNonce := box[p..p + NONCE_SIZE];
    p := p + NONCE_SIZE;
    return Some(Envelope(kekNonce, wrapped, dekNonce, box[p..]));
  }

  // ----- sealing and opening -----

  function Box(a: Aead, kek: Bytes, dek: Bytes, kekNonce: Bytes, dekNonce: Bytes, plaintext: Bytes): Bytes {
    Serialize(Envelope(kekNonce, a.seal(kek, kekNonce, dek), dekNonce, a.seal(dek, dekNonce, plaintext)))
  }

  /** NewX refuses a key of another length. */
  function Open(a: Aead, key: Bytes, nonce: Bytes, sealed: Bytes): Option<Bytes> {
    if |key| != KEY_SIZE then None else a.open(key, nonce, sealed)
  }

  function Unbox(a: Aead, kek: Bytes, box: Bytes): Option<Bytes> {
    match Parse(box)
    case None => None
    case Some(e) =>
      match Open(a, kek, e.kekNonce, e.wrapped)
      case None => None
      case Some(dek) => Open(a, dek, e.dekNonce, e.sealed)
  }

  ghost predicate Fits(kek: Bytes, dek: Bytes, kekNonce: Bytes, dekNonce: Bytes) {
    |kek| == |dek| == KEY_SIZE && |kekNonce| == |dekNonce| == NONCE_SIZE
  }

  lemma RoundTrip(a: Aead, kek: Bytes, dek: Bytes, kekNonce: Bytes, dekNonce: Bytes, plaintext: Bytes)
    requires Lawful(a) && Fits(kek, dek, kekNonce, dekNonce)
    ensures Unbox(a, kek, Box(a, kek, dek, kekNonce, dekNonce, plaintext)) == Some(plaintext)
  {
    var wrapped := a.seal(kek, kekNonce, dek);
    assert |wrapped| == KEY_SIZE + TAG_SIZE && a.open(kek, kekNonce, wrapped) == Some(dek);
    ParseSerialize(Envelope(kekNonce, wrapped, dekNonce, a.seal(dek, dekNonce, plaintext)));
  }

  /** Decryption succeeds on exactly the boxes some encryption under this key can
      produce, and returns the plaintext that encryption was given. */
  lemma UnboxExactly(a: Aead, kek: Bytes, box: Bytes, plaintext: Bytes)
    requires Lawful(a) && |kek| == KEY_SIZE
    ensures Unbox(a, kek, box) == Some(plaintext) <==>
            exists dek, kekNonce, dekNonce ::
              Fits(kek, dek, kekNonce, dekNonce) && box == Box(a, kek, dek, kekNonce, dekNonce, plaintext)
  {
    if Unbox(a, kek, box) == Some(plaintext) {
      SerializeParse(box);
      var e := Parse(box).value;
      var dek := Open(a, kek, e.kekNonce, e.wrapped).value;
      assert e.wrapped == a.seal(kek, e.kekNonce, dek);
      assert e.sealed == a.seal(dek, e.dekNonce, plaintext);
      assert Fits(kek, dek, e.kekNonce, e.dekNonce) && box == Box(a, kek, dek, e.kekNonce, e.dekNonce, plaintext);
    }
    forall dek, kekNonce, dekNonce |
        Fits(kek, dek, kekNonce, dekNonce) && box == Box(a, kek, dek, kekNonce, dekNonce, plaintext)
      ensures Unbox(a, kek, box) == Some(plaintext)
    {
      RoundTrip(a, kek, dek, kekNonce, dekNonce, plaintext);
    }
  }

  function Zeros(n: nat): Bytes { seq(n, _ => 0) }

  /** The cipher laws are consistent: appending a fixed tag meets them. */
  lemma LawsAreConsistent()
    ensures exists a :: Lawful(a)
  {
    var seal := (k: Bytes, n: Bytes, p: Bytes) => p + Zeros(TAG_SIZE);
    var open := (k: Bytes, n: Bytes, c: Bytes) =>
      if |c| >= TAG_SIZE && c[|c| - TAG_SIZE..] == Zeros(TAG_SIZE) then Some(c[..|c| - TAG_SIZE]) else None;
    forall p: Bytes, c: Bytes ensures open([], [], c) == Some(p) <==> c == p + Zeros(TAG_SIZE) {
      assert |c| >= TAG_SIZE ==> c == c[..|c| - TAG_SIZE] + c[|c| - TAG_SIZE..];
    }
    assert Lawful(Aead(seal, open));
  }

  // ----- the vault -----

  method Wipe(key: array<Byte>)
    modifies key
    ensures key[..] == Zeros(key.Length)
  {
    for i := 0 to key.Length
      invariant forall j :: 0 <= j < i ==> key[j] == 0
    {
      key[i] := 0;
    }
  }

  /** The three reads of the random source; None where a read fails. */
  datatype Entropy = Entropy(dek: Option<Bytes>, kekNonce: Option<Bytes>, dekNonce: Option<Bytes>)

  ghost predicate Sized(r: Entropy) {
    && (r.dek.Some? ==> |r.dek.value| == KEY_SIZE)
    && (r.kekNonce.Some? ==> |r.kekNonce.value| == NONCE_SIZE)
    && (r.dekNonce.Some? ==> |r.dekNonce.value| == NONCE_SIZE)
  }

  class Keyring {
    const kek: Bytes

    constructor (kek: Bytes)
      requires |kek| == KEY_SIZE
      ensures this.kek == kek
    {
      this.kek := kek;
    }

    static method New(kek: Bytes) returns (v: Keyring?)
      ensures v == null <==> |kek| != KEY_SIZE
      ensures v != null ==> fresh(v) && v.kek == kek
    {
      if |kek| != KEY_SIZE {
        return null;
      }
      v := new Keyring(kek);
    }

    /** `dek` is the buffer allocated for the data key: once filled it is zero again
        on every return. */
    method Encrypt(a: Aead, dek: array<Byte>, r: Entropy, plaintext: Bytes) returns (box: Option<Bytes>)
      requires dek.Length == KEY_SIZE && Sized(r)
      modifies dek
      ensures box.Some? <==> r.dek.Some? && r.kekNonce.Some? && r.dekNonce.Some?
      ensures box.Some? ==> box.value == Box(a, kek, r.dek.value, r.kekNonce.value, r.dekNonce.value, plaintext)
      ensures r.dek.Some? ==> dek[..] == Zeros(KEY_SIZE)
    {
      if r.dek.None? {
        return None;
      }
      forall i | 0 <= i < KEY_SIZE {
        dek[i] := r.dek.value[i];
      }
      assert dek[..] == r.dek.value;
      if r.kekNonce.None? {
        Wipe(dek);
        return None;
      }
      var wrapped := a.seal(kek, r.kekNonce.value, dek[..]);
      if r.dekNonce.None? {
        Wipe(dek);
        return None;
      }
      var sealed := a.seal(dek[..], r.dekNonce.value, plaintext);
      var out := [VERSION];
      out := out + r.kekNonce.value;
      out := out + PutUint32(|wrapped|);
      out := out + wrapped;
      out := out + r.dekNonce.value;
      out := out + sealed;
      Wipe(dek);
      return Some(out);
    }

    /** `key` is the buffer that held the unwrapped data key, empty if none was. */
    method Decrypt(a: Aead, box: Bytes) returns (plaintext: Option<Bytes>, key: array<Byte>)
      ensures plaintext == Unbox(a, kek, box)
      ensures fresh(key) && key[..] == Zeros(key.Length)
      ensures plaintext.Some? ==> key.Length == KEY_SIZE
    {
      key := new Byte[0];
      var parsed := ParseBox(box);
      if parsed.None? {
        return None, key;
      }
      var e := parsed.value;
      var unwrapped := Open(a, kek, e.kekNonce, e.wrapped);
      if unwrapped.None? {
        return None, key;
      }
      key := new Byte[|unwrapped.value|](i requires 0 <= i < |unwrapped.value| => unwrapped.value[i]);
      assert key[..] == unwrapped.value;
      plaintext := Open(a, key[..], e.dekNonce, e.sealed);
      Wipe(key);
    }
  }

  /** Encrypting and then decrypting with the same vault gives the plaintext back,
      whenever the random source delivers. */
  method StoreAndLoad(v: Keyring, a: Aead, dek: array<Byte>, r: Entropy, plaintext: Bytes) returns (back: Option<Bytes>)
    requires Lawful(a) && |v.kek| == KEY_SIZE && dek.Length == KEY_SIZE && Sized(r)
    modifies dek
    ensures back == if r.dek.Some? && r.kekNonce.Some? && r.dekNonce.Some? then Some(plaintext) else None
  {
    var box := v.Encrypt(a, dek, r, plaintext);
    if box.None? {
      return None;
    }
    RoundTrip(a, v.kek, r.dek.value, r.kekNonce.value, r.dekNonce.value, plaintext);
    var key;
    back, key := v.Decrypt(a, box.value);
  }
}
