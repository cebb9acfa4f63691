// Transparent encryption: internal/storage/encrypted.go over the in-memory cipher of
// internal/encryption/stream/simple_aes_gcm.go and the local key provider of internal/encryption/keys/local.go.
// The wrapped backend is an abstract store whose overwrites replace bytes and metadata together.
module EncryptedStore {
  import opened Core
  import opened Runs
  import opened Aead
  import opened Decimal

  type Meta = map<string, string>

  const ALGORITHM := "x-amz-meta-encryption-algorithm"
  const KEY_ID := "x-amz-meta-encryption-key-id"
  const DEK := "x-amz-meta-encryption-dek"
  const NONCE := "x-amz-meta-encryption-nonce"
  const ENCRYPTED_SIZE := "x-amz-meta-encrypted-size"
  const SSE := "x-amz-server-side-encryption"
  const RESERVED: set<string> := {ALGORITHM, KEY_ID, DEK, NONCE, ENCRYPTED_SIZE}

  const AES_256_GCM := "AES-256-GCM"
  const MAX_MEMORY := 100 * 1024 * 1024

  lemma ConstantsDistinct()
    ensures ALGORITHM != KEY_ID && ALGORITHM != DEK && ALGORITHM != NONCE && ALGORITHM != ENCRYPTED_SIZE
    ensures KEY_ID != DEK && KEY_ID != NONCE && KEY_ID != ENCRYPTED_SIZE && DEK != NONCE && DEK != ENCRYPTED_SIZE
    ensures NONCE != ENCRYPTED_SIZE && SSE !in RESERVED
  {
    assert ALGORITHM[22] == 'a' && KEY_ID[22] == 'k' && DEK[22] == 'd' && NONCE[22] == 'n';
    assert ENCRYPTED_SIZE[18] == 'e' && ALGORITHM[18] == 'i' && KEY_ID[18] == 'i' && DEK[18] == 'i' && NONCE[18] == 'i';
    assert SSE[6] == 's' && ALGORITHM[6] == 'm' && KEY_ID[6] == 'm' && DEK[6] == 'm' && NONCE[6] == 'm'
        && ENCRYPTED_SIZE[6] == 'm';
  }

  /** Reading a missing key of a Go map gives "". */
  function Lookup(m: Meta, key: string): string { if key in m then m[key] else "" }

  // ---------------------------------------------------------------- keys

  /** base64: decoding inverts encoding, and only the empty string encodes nothing. */
  datatype Codec = Codec(encode: Bytes -> string, decode: string -> Option<Bytes>)

  ghost predicate LawfulCodec(c: Codec) {
    forall b :: c.decode(c.encode(b)) == Some(b) && (b != [] ==> c.encode(b) != "")
  }

  datatype Crypto = Crypto(scheme: Scheme, codec: Codec, masterKey: Bytes)

  ghost predicate LawfulCrypto(c: Crypto) { Lawful(c.scheme) && LawfulCodec(c.codec) }

  /** What the random source gives to one Encrypt. */
  datatype Randomness = Randomness(dek: Bytes, dekNonce: Bytes, nonce: Bytes)

  predicate RandomnessOk(r: Randomness) { |r.dek| == 32 && |r.dekNonce| == NONCE_SIZE && |r.nonce| == NONCE_SIZE }

  /** GenerateDEK: the nonce, then the sealed key, as text. */
  function WrapDek(c: Crypto, dek: Bytes, nonce: Bytes): string {
    c.codec.encode(nonce + c.scheme.seal(c.masterKey, nonce, dek))
  }

  function DecryptDek(c: Crypto, text: string): Option<Bytes> {
    var raw := c.codec.decode(text);
    if raw.None? || |raw.value| < NONCE_SIZE then None
    else c.scheme.open(c.masterKey, raw.value[..NONCE_SIZE], raw.value[NONCE_SIZE..])
  }

  lemma DekRoundTrip(c: Crypto, dek: Bytes, nonce: Bytes)
    requires LawfulCrypto(c) && |nonce| == NONCE_SIZE
    ensures DecryptDek(c, WrapDek(c, dek, nonce)) == Some(dek)
  {
    var wrapped := nonce + c.scheme.seal(c.masterKey, nonce, dek);
    assert wrapped[..NONCE_SIZE] == nonce && wrapped[NONCE_SIZE..] == c.scheme.seal(c.masterKey, nonce, dek);
  }

  /** What is written is the key sealed under the master key, behind its nonce. */
  lemma WrappedIsSealed(c: Crypto, dek: Bytes, nonce: Bytes)
    requires LawfulCrypto(c) && |nonce| == NONCE_SIZE
    ensures c.codec.decode(WrapDek(c, dek, nonce)) == Some(nonce + c.scheme.seal(c.masterKey, nonce, dek))
    ensures WrapDek(c, dek, nonce) != ""
  {
    assert |nonce + c.scheme.seal(c.masterKey, nonce, dek)| > 0;
  }

  /** The text `text` holds the data key `dek`: behind a nonce, something that opens to it under the master key. */
  predicate HoldsKey(c: Crypto, text: string, dek: Bytes) {
    var raw := c.codec.decode(text);
    raw.Some? && |raw.value| >= 12 && c.scheme.open(c.masterKey, raw.value[..12], raw.value[12..]) == Some(dek)
  }

  /** A data key is read if and only if it opens under the master key. */
  lemma DecryptDekExactly(c: Crypto, text: string, dek: Bytes)
    ensures DecryptDek(c, text) == Some(dek) <==> HoldsKey(c, text, dek)
  {
  }

  // ---------------------------------------------------------------- the cipher

  /** The size written into the metadata: the length read, or the declared size of a large or unsized body. */
  function RecordedSize(data: Bytes, size: int): int { if 0 <= size <= MAX_MEMORY then |data| else size }

  function Ciphertext(c: Crypto, r: Randomness, data: Bytes): Bytes { c.scheme.seal(r.dek, r.nonce, data) }

  function EncryptionMeta(c: Crypto, r: Randomness, data: Bytes, size: int): Meta {
    map[ALGORITHM := AES_256_GCM, KEY_ID := "local", DEK := WrapDek(c, r.dek, r.dekNonce),
        NONCE := c.codec.encode(r.nonce), ENCRYPTED_SIZE := FormatInt(RecordedSize(data, size))]
  }

  function Decrypt(c: Crypto, bytes: Bytes, meta: Meta): Option<Bytes> {
    if Lookup(meta, DEK) == "" || Lookup(meta, NONCE) == "" then None
    else
      var nonce, dek := c.codec.decode(Lookup(meta, NONCE)), DecryptDek(c, Lookup(meta, DEK));
      if nonce.None? || dek.None? then None else c.scheme.open(dek.value, nonce.value, bytes)
  }

  // ---------------------------------------------------------------- what the wrapper shows

  datatype Name = Name(bucket: string, key: string)

  datatype Stored = Stored(bytes: Bytes, meta: Meta)

  datatype Shown = Shown(body: Bytes, size: int, meta: Meta)

  datatype ShownInfo = ShownInfo(size: int, meta: Meta)

  datatype Config = Config(crypto: Crypto, enabled: bool)

  predicate IsEncrypted(meta: Meta) { Lookup(meta, ALGORITHM) != "" }

  predicate ValidMeta(meta: Meta) {
    Lookup(meta, ALGORITHM) != "" && Lookup(meta, DEK) != "" && Lookup(meta, NONCE) != ""
  }

  function OriginalSize(meta: Meta, current: int): int {
    var text := Lookup(meta, ENCRYPTED_SIZE);
    if text != "" && ParseInt(text).Some? then ParseInt(text).value else current
  }

  /** cleanMetadata, and the marker that encrypted objects keep. */
  function CleanMeta(meta: Meta): Meta {
    if IsEncrypted(meta) then (meta - RESERVED)[SSE := "AES256"] else meta - RESERVED
  }

  /** HeadObject and processListItem. */
  function ShowInfo(st: Stored): ShownInfo {
    ShownInfo(if IsEncrypted(st.meta) then OriginalSize(st.meta, |st.bytes|) else |st.bytes|, CleanMeta(st.meta))
  }

  /** GetObject on what the backend holds. */
  function Show(cfg: Config, st: Stored): Option<Shown> {
    if !IsEncrypted(st.meta) then Some(Shown(st.bytes, |st.bytes|, CleanMeta(st.meta)))
    else if !ValidMeta(st.meta) || !cfg.enabled then None
    else
      var body := Decrypt(cfg.crypto, st.bytes, st.meta);
      if body.None? then None else Some(Shown(body.value, OriginalSize(st.meta, |st.bytes|), CleanMeta(st.meta)))
  }

  /** What PutObject hands to the backend. */
  function Seal(cfg: Config, r: Randomness, data: Bytes, size: int, meta: Meta): Stored {
    if !cfg.enabled then Stored(data, meta)
    else Stored(Ciphertext(cfg.crypto, r, data), (meta + EncryptionMeta(cfg.crypto, r, data, size))[SSE := "AES256"])
  }

  predicate UserMeta(meta: Meta) { meta.Keys !! RESERVED }

  /** A size the wrapper can restore: what fits in memory is measured, anything else must be declared right. */
  predicate SizeHonest(data: Bytes, size: int) {
    Int64(|data|) && Int64(size) && (0 <= size <= MAX_MEMORY || size == |data|)
  }

  /** What a plain store would show of an object put with this data and metadata. */
  function PlainShow(data: Bytes, meta: Meta, encrypted: bool): Shown {
    Shown(data, |data|, if encrypted then meta[SSE := "AES256"] else meta)
  }

  lemma SealedMeta(cfg: Config, r: Randomness, data: Bytes, size: int, meta: Meta)
    requires LawfulCrypto(cfg.crypto) && RandomnessOk(r) && cfg.enabled
    ensures var m := Seal(cfg, r, data, size, meta).meta;
            && IsEncrypted(m) && ValidMeta(m)
            && Lookup(m, DEK) == WrapDek(cfg.crypto, r.dek, r.dekNonce)
            && Lookup(m, NONCE) == cfg.crypto.codec.encode(r.nonce)
            && Lookup(m, ENCRYPTED_SIZE) == FormatInt(RecordedSize(data, size))
            && CleanMeta(m) == (meta - RESERVED)[SSE := "AES256"]
  {
    ConstantsDistinct();
    var m := Seal(cfg, r, data, size, meta).meta;
    assert m - RESERVED == (meta - RESERVED)[SSE := "AES256"];
  }

  /** What is stored of an encrypted put, said with the cipher, the codec and the master key alone. */
  predicate StoredSealed(c: Crypto, st: Stored, data: Bytes, r: Randomness) {
    && st.bytes == c.scheme.seal(r.dek, r.nonce, data)
    && Lookup(st.meta, "x-amz-meta-encryption-algorithm") == "AES-256-GCM"
    && Lookup(st.meta, "x-amz-server-side-encryption") == "AES256"
    && c.codec.decode(Lookup(st.meta, "x-amz-meta-encryption-nonce")) == Some(r.nonce)
    && var raw := c.codec.decode(Lookup(st.meta, "x-amz-meta-encryption-dek"));
       raw.Some? && |raw.value| >= 12 && raw.value[..12] == r.dekNonce
       && raw.value[12..] == c.scheme.seal(c.masterKey, r.dekNonce, r.dek)
  }

  lemma MetaSealed(c: Crypto, r: Randomness, data: Bytes, size: int, meta: Meta)
    requires LawfulCrypto(c) && RandomnessOk(r)
    ensures StoredSealed(c, Stored(Ciphertext(c, r, data), (meta + EncryptionMeta(c, r, data, size))[SSE := "AES256"]),
            data, r)
  {
    ConstantsDistinct();
    WrappedIsSealed(c, r.dek, r.dekNonce);
    var wrapped := r.dekNonce + c.scheme.seal(c.masterKey, r.dekNonce, r.dek);
    assert wrapped[..12] == r.dekNonce && wrapped[12..] == c.scheme.seal(c.masterKey, r.dekNonce, r.dek);
  }

  /**
   * What Get gives for what is stored, said in the same way: what opens under a key that opens under the master key.
   */
  predicate OpensTo(c: Crypto, st: Stored, body: Bytes) {
    var key, nonce := Lookup(st.meta, "x-amz-meta-encryption-dek"), Lookup(st.meta, "x-amz-meta-encryption-nonce");
    var raw := c.codec.decode(key);
    && key != "" && nonce != "" && c.codec.decode(nonce).Some? && raw.Some? && |raw.value| >= 12
    && var dek := c.scheme.open(c.masterKey, raw.value[..12], raw.value[12..]);
       dek.Some? && c.scheme.open(dek.value, c.codec.decode(nonce).value, st.bytes) == Some(body)
  }

  /**
   * An object whose metadata name an algorithm is shown if and only if it opens, and as what it opens to; others as is.
   */
  lemma ShowExactly(cfg: Config, st: Stored, body: Bytes)
    ensures (Show(cfg, st).Some? && Show(cfg, st).value.body == body) <==> ShownAs(cfg, st, body)
  {
  }

  predicate ShownAs(cfg: Config, st: Stored, body: Bytes) {
    if Lookup(st.meta, "x-amz-meta-encryption-algorithm") != "" then cfg.enabled && OpensTo(cfg.crypto, st, body)
    else body == st.bytes
  }

  /** Under a master key that does not open the stored key, an encrypted object is not shown at all. */
  lemma WrongMasterKey(cfg: Config, st: Stored)
    requires Lookup(st.meta, "x-amz-meta-encryption-algorithm") != ""
    requires forall dek :: !HoldsKey(cfg.crypto, Lookup(st.meta, "x-amz-meta-encryption-dek"), dek)
    ensures Show(cfg, st).None?
  {
    if Show(cfg, st).Some? {
      ShowExactly(cfg, st, Show(cfg, st).value.body);
      var raw := cfg.crypto.codec.decode(Lookup(st.meta, "x-amz-meta-encryption-dek"));
      var dek := cfg.crypto.scheme.open(cfg.crypto.masterKey, raw.value[..12], raw.value[12..]);
      assert HoldsKey(cfg.crypto, Lookup(st.meta, "x-amz-meta-encryption-dek"), dek.value);
    }
  }

  /** Putting and getting: the original bytes come back, the size as recorded, the metadata without reserved keys. */
  lemma PutGet(cfg: Config, r: Randomness, data: Bytes, size: int, meta: Meta)
    requires LawfulCrypto(cfg.crypto) && RandomnessOk(r) && cfg.enabled && Int64(|data|) && Int64(size)
    ensures Show(cfg, Seal(cfg, r, data, size, meta))
         == Some(Shown(data, RecordedSize(data, size), (meta - RESERVED)[SSE := "AES256"]))
  {
    SealedMeta(cfg, r, data, size, meta);
    DekRoundTrip(cfg.crypto, r.dek, r.dekNonce);
    ParseFormat(RecordedSize(data, size));
  }

  /** The user's metadata survives if and only if it uses no reserved key. */
  lemma MetadataExactly(cfg: Config, r: Randomness, data: Bytes, size: int, meta: Meta)
    requires LawfulCrypto(cfg.crypto) && RandomnessOk(r) && cfg.enabled && Int64(|data|) && Int64(size)
    ensures Show(cfg, Seal(cfg, r, data, size, meta)).value.meta == meta[SSE := "AES256"] <==> UserMeta(meta)
  {
    PutGet(cfg, r, data, size, meta);
    ConstantsDistinct();
    if UserMeta(meta) {
      assert meta - RESERVED == meta;
    } else {
      var key :| key in meta && key in RESERVED;
      assert key in meta[SSE := "AES256"] && key !in (meta - RESERVED)[SSE := "AES256"];
    }
  }

  /** The size survives if and only if it was measured or declared right. */
  lemma SizeExactly(cfg: Config, r: Randomness, data: Bytes, size: int, meta: Meta)
    requires LawfulCrypto(cfg.crypto) && RandomnessOk(r) && cfg.enabled && Int64(|data|) && Int64(size)
    ensures Show(cfg, Seal(cfg, r, data, size, meta)).value.size == |data| <==> SizeHonest(data, size)
  {
    PutGet(cfg, r, data, size, meta);
  }

  /** On honest puts the wrapper shows what a plain store would. */
  lemma PutShowsPlain(cfg: Config, r: Randomness, data: Bytes, size: int, meta: Meta)
    requires LawfulCrypto(cfg.crypto) && RandomnessOk(r) && SizeHonest(data, size) && UserMeta(meta)
    ensures var st := Seal(cfg, r, data, size, meta);
            var plain := PlainShow(data, meta, cfg.enabled);
            Show(cfg, st) == Some(plain) && ShowInfo(st) == ShownInfo(plain.size, plain.meta)
  {
    assert meta - RESERVED == meta;
    var st := Seal(cfg, r, data, size, meta);
    if cfg.enabled {
      PutGet(cfg, r, data, size, meta);
      SealedMeta(cfg, r, data, size, meta);
      ParseFormat(RecordedSize(data, size));
    }
  }

  // ---------------------------------------------------------------- the wrapper and its backend

  datatype Upload = Upload(name: Name, meta: Meta, parts: map<int, Bytes>)

  type UploadId = int

  /** The abstract backend. */
  datatype Base = Base(store: map<Name, Stored>, uploads: map<UploadId, Upload>)

  /** The wrapper: its backend and the metadata of uploads it started (multipartUploads). */
  datatype Wrapped = Wrapped(base: Base, pending: map<UploadId, Meta>)

  /** What the three backend calls inside a completion do, in order. */
  datatype Fate = Works | CompleteFails | GetFails | PutFails

  datatype Op =
    | Put(n: Name, data: Bytes, size: int, meta: Meta, r: Randomness, fails: bool)
    | Get(n: Name, fails: bool)
    | Head(n: Name, fails: bool)
    | List(names: seq<Name>, fails: bool)
    | Delete(n: Name, fails: bool)
    | Initiate(id: UploadId, n: Name, meta: Meta, fails: bool)
    | UploadPart(id: UploadId, number: int, data: Bytes, fails: bool)
    | Complete(id: UploadId, n: Name, numbers: seq<int>, r: Randomness, fate: Fate)
    | Abort(id: UploadId, fails: bool)
    | Restart                            // a new wrapper around the same backend

  /** The backend's own completion needs a known upload and every listed part. */
  predicate Completes(b: Base, id: UploadId, numbers: seq<int>) {
    id in b.uploads && forall i :: 0 <= i < |numbers| ==> numbers[i] in b.uploads[id].parts
  }

  /** What completing the upload makes of it. */
  function OfUpload(up: Upload, numbers: seq<int>): Stored
    requires forall i :: 0 <= i < |numbers| ==> numbers[i] in up.parts
  {
    Stored(Assembled(up.parts, numbers), up.meta)
  }

  /** CompleteMultipartUpload: assemble, read back, encrypt, overwrite - stopping where a call fails. */
  function AfterComplete(cfg: Config, w: Wrapped, id: UploadId, n: Name, numbers: seq<int>, r: Randomness,
      fate: Fate): Wrapped {
    if fate.CompleteFails? || !Completes(w.base, id, numbers) then w
    else
      var up := w.base.uploads[id];
      var data := Assembled(up.parts, numbers);
      var assembled := Base(w.base.store[n := Stored(data, up.meta)], w.base.uploads - {id});
      if !cfg.enabled || id !in w.pending || !fate.Works? then w.(base := assembled)
      else
        var merged := (w.pending[id] + up.meta + EncryptionMeta(cfg.crypto, r, data, |data|))[SSE := "AES256"];
        Wrapped(assembled.(store := assembled.store[n := Stored(Ciphertext(cfg.crypto, r, data), merged)]),
            w.pending - {id})
  }

  function After(cfg: Config, w: Wrapped, op: Op): Wrapped {
    match op
    case Put(n, data, size, meta, r, fails) =>
      if fails then w else w.(base := w.base.(store := w.base.store[n := Seal(cfg, r, data, size, meta)]))
    case Get(_, _) => w
    case Head(_, _) => w
    case List(_, _) => w
    case Delete(n, fails) => if fails then w else w.(base := w.base.(store := w.base.store - {n}))
    case Initiate(id, n, meta, fails) =>
      if fails then w
      else Wrapped(w.base.(uploads := w.base.uploads[id := Upload(n, meta, map[])]),
                   if cfg.enabled then w.pending[id := meta] else w.pending)
    case UploadPart(id, number, data, fails) =>
      if fails || id !in w.base.uploads then w
      else
        var up := w.base.uploads[id];
        w.(base := w.base.(uploads := w.base.uploads[id := up.(parts := up.parts[number := data])]))
    case Complete(id, n, numbers, r, fate) => AfterComplete(cfg, w, id, n, numbers, r, fate)
    case Abort(id, fails) =>
      // what was remembered goes first, whatever the backend then says
      Wrapped(if fails then w.base else w.base.(uploads := w.base.uploads - {id}), w.pending - {id})
    case Restart => w.(pending := map[])
  }

  /** Answers a caller can see. */
  datatype Answer =
    | Object(o: Option<Shown>)
    | Info(i: Option<ShownInfo>)
    | Listing(items: Option<seq<ShownInfo>>)
    | Done(ok: bool)

  function ShowAll(store: map<Name, Stored>, names: seq<Name>): seq<ShownInfo>
    requires forall i :: 0 <= i < |names| ==> names[i] in store
  {
    seq(|names|, i requires 0 <= i < |names| => ShowInfo(store[names[i]]))
  }

  function Answers(cfg: Config, w: Wrapped, op: Op): Answer
    requires Legal(cfg, w, op)
  {
    match op
    case Put(_, _, _, _, _, fails) => Done(!fails)
    case Get(n, fails) => Object(if !fails && n in w.base.store then Show(cfg, w.base.store[n]) else None)
    case Head(n, fails) => Info(if !fails && n in w.base.store then Some(ShowInfo(w.base.store[n])) else None)
    case List(names, fails) => Listing(if fails then None else Some(ShowAll(w.base.store, names)))
    case Delete(_, fails) => Done(!fails)
    case Initiate(_, _, _, fails) => Done(!fails)
    case UploadPart(id, _, _, fails) => Done(!fails && id in w.base.uploads)
    case Complete(id, n, numbers, r, fate) =>
      Done(Completes(w.base, id, numbers)
          && (fate.Works? || (!fate.CompleteFails? && (!cfg.enabled || id !in w.pending))))
    case Abort(_, fails) => Done(!fails)
    case Restart => Done(true)
  }

  /** What callers and the backend's id generator are assumed to do. */
  predicate Legal(cfg: Config, w: Wrapped, op: Op) {
    match op
    case Put(_, data, size, meta, r, _) => SizeHonest(data, size) && UserMeta(meta) && RandomnessOk(r)
    case List(names, _) => forall i :: 0 <= i < |names| ==> names[i] in w.base.store
    case Initiate(id, _, meta, _) => id !in w.base.uploads && UserMeta(meta)
    case Complete(id, _, numbers, r, _) =>
      RandomnessOk(r) && (Completes(w.base, id, numbers) ==> Int64(|Assembled(w.base.uploads[id].parts, numbers)|))
    case _ => true
  }

  // ---------------------------------------------------------------- the plain store it refines

  /** An object of the plain store: its bytes, its user metadata, and whether it carries the SSE marker. */
  datatype PlainObject = PlainObject(data: Bytes, meta: Meta, marked: bool)

  datatype Plain = Plain(store: map<Name, PlainObject>, uploads: map<UploadId, Upload>)

  function PlainAfter(cfg: Config, p: Plain, op: Op): Plain {
    match op
    case Put(n, data, _, meta, _, fails) =>
      if fails then p else p.(store := p.store[n := PlainObject(data, meta, cfg.enabled)])
    case Delete(n, fails) => if fails then p else p.(store := p.store - {n})
    case Initiate(id, n, meta, fails) => if fails then p else p.(uploads := p.uploads[id := Upload(n, meta, map[])])
    case UploadPart(id, number, data, fails) =>
      if fails || id !in p.uploads then p
      else p.(uploads := p.uploads[id := p.uploads[id].(parts := p.uploads[id].parts[number := data])])
    case Complete(id, n, numbers, _, fate) =>
      if fate.CompleteFails? || !Completes(Base(map[], p.uploads), id, numbers) then p
      else
        var up := p.uploads[id];
        // completing is putting the concatenated parts; a failure after assembly leaves it unmarked
        Plain(p.store[n := PlainObject(Assembled(up.parts, numbers), up.meta, cfg.enabled && fate.Works?)],
            p.uploads - {id})
    case Abort(id, fails) => if fails then p else p.(uploads := p.uploads - {id})
    case _ => p
  }

  function PlainView(o: PlainObject): Shown { PlainShow(o.data, o.meta, o.marked) }

  function PlainInfo(o: PlainObject): ShownInfo { ShownInfo(PlainView(o).size, PlainView(o).meta) }

  function PlainAnswers(cfg: Config, p: Plain, op: Op): Answer
    requires op.List? ==> forall i :: 0 <= i < |op.names| ==> op.names[i] in p.store
  {
    match op
    case Put(_, _, _, _, _, fails) => Done(!fails)
    case Get(n, fails) => Object(if !fails && n in p.store then Some(PlainView(p.store[n])) else None)
    case Head(n, fails) => Info(if !fails && n in p.store then Some(PlainInfo(p.store[n])) else None)
    case List(names, fails) =>
      Listing(if fails then None else Some(seq(|names|, i requires 0 <= i < |names| => PlainInfo(p.store[names[i]]))))
    case Delete(_, fails) => Done(!fails)
    case Initiate(_, _, _, fails) => Done(!fails)
    case UploadPart(id, _, _, fails) => Done(!fails && id in p.uploads)
    case Complete(id, n, numbers, r, fate) =>
      Done(Completes(Base(map[], p.uploads), id, numbers) && (fate.Works? || (!fate.CompleteFails? && !cfg.enabled)))
    case Abort(_, fails) => Done(!fails)
    case Restart => Done(true)
  }

  // ---------------------------------------------------------------- refinement

  /** Both stores, and as history the uploads that an abort was attempted of, or that a restart forgot. */
  datatype Both = Both(wrapped: Wrapped, plain: Plain, orphans: set<UploadId>)

  const START := Both(Wrapped(Base(map[], map[]), map[]), Plain(map[], map[]), {})

  function Orphaned(b: Both, op: Op): set<UploadId> {
    match op
    case Abort(id, _) => b.orphans + {id}
    case Restart => b.orphans + b.wrapped.base.uploads.Keys
    case Initiate(id, _, _, fails) => if fails then b.orphans else b.orphans - {id}
    case _ => b.orphans
  }

  function Stepped(cfg: Config, b: Both, op: Op): Both {
    Both(After(cfg, b.wrapped, op), PlainAfter(cfg, b.plain, op), Orphaned(b, op))
  }

  /** A completion that the backend carries out. */
  predicate Assembling(w: Wrapped, op: Op) {
    op.Complete? && !op.fate.CompleteFails? && Completes(w.base, op.id, op.numbers)
  }

  /** Not a completion of an upload whose metadata the wrapper no longer remembers. */
  predicate Attended(cfg: Config, w: Wrapped, op: Op) { Assembling(w, op) ==> !cfg.enabled || op.id in w.pending }

  ghost function Next(cfg: Config): (Both, Op) -> Option<Both> {
    (b: Both, op: Op) =>
      if Legal(cfg, b.wrapped, op) && Attended(cfg, b.wrapped, op) then Some(Stepped(cfg, b, op)) else None
  }

  /** The wrapper looks like the plain store, and holds exactly the marked objects encrypted. */
  ghost predicate Looks(cfg: Config, w: Wrapped, p: Plain) {
    && w.base.store.Keys == p.store.Keys
    && (forall n :: n in p.store ==> LooksAt(cfg, w.base.store[n], p.store[n]))
    && w.base.uploads == p.uploads
    && (forall id :: id in p.uploads ==>
          && UserMeta(p.uploads[id].meta)
          && (cfg.enabled && id in w.pending ==> w.pending[id] == p.uploads[id].meta))
  }

  ghost predicate LooksAt(cfg: Config, st: Stored, o: PlainObject) {
    && Show(cfg, st) == Some(PlainView(o)) && ShowInfo(st) == PlainInfo(o)
    && (IsEncrypted(st.meta) <==> o.marked)
  }

  /** The wrapper remembers exactly the uploads that are no orphans. */
  ghost predicate Remembers(cfg: Config, b: Both) {
    cfg.enabled ==> forall id :: id in b.wrapped.base.uploads ==> (id in b.wrapped.pending <==> id !in b.orphans)
  }

  ghost predicate Matches(cfg: Config, b: Both) { Looks(cfg, b.wrapped, b.plain) && Remembers(cfg, b) }

  /** The bytes a backend assembles show as an unmarked object. */
  lemma UnmarkedShows(cfg: Config, data: Bytes, meta: Meta)
    requires UserMeta(meta)
    ensures LooksAt(cfg, Stored(data, meta), PlainObject(data, meta, false))
  {
    assert meta - RESERVED == meta;
    assert ALGORITHM in RESERVED && ALGORITHM !in meta;
  }

  /** What a put stores looks like the object put. */
  lemma PutLooks(cfg: Config, r: Randomness, data: Bytes, size: int, meta: Meta)
    requires LawfulCrypto(cfg.crypto) && RandomnessOk(r) && SizeHonest(data, size) && UserMeta(meta)
    ensures LooksAt(cfg, Seal(cfg, r, data, size, meta), PlainObject(data, meta, cfg.enabled))
  {
    PutShowsPlain(cfg, r, data, size, meta);
    if cfg.enabled { SealedMeta(cfg, r, data, size, meta); } else { UnmarkedShows(cfg, data, meta); }
  }

  /**
   * Completing an attended upload is putting its parts glued together; later failures leave the unmarked plain object.
   */
  lemma CompleteMatches(cfg: Config, b: Both, op: Op)
    requires LawfulCrypto(cfg.crypto) && Matches(cfg, b) && op.Complete? && Legal(cfg, b.wrapped, op)
             && Attended(cfg, b.wrapped, op)
    ensures Matches(cfg, Stepped(cfg, b, op))
  {
    if Assembling(b.wrapped, op) {
      var up := b.plain.uploads[op.id];
      var data := Assembled(up.parts, op.numbers);
      UnmarkedShows(cfg, data, up.meta);
      if cfg.enabled && op.fate.Works? {
        assert up.meta + up.meta == up.meta;
        PutLooks(cfg, op.r, data, |data|, up.meta);
      }
    }
  }

  lemma StepMatches(cfg: Config, b: Both, op: Op)
    requires LawfulCrypto(cfg.crypto) && Matches(cfg, b) && Legal(cfg, b.wrapped, op) && Attended(cfg, b.wrapped, op)
    ensures Matches(cfg, Stepped(cfg, b, op))
  {
    match op
    case Put(n, data, size, meta, r, fails) => PutLooks(cfg, r, data, size, meta);
    case Complete(_, _, _, _, _) => CompleteMatches(cfg, b, op);
    case _ =>
  }

  lemma MatchingListing(cfg: Config, w: Wrapped, p: Plain, names: seq<Name>)
    requires Looks(cfg, w, p) && forall i :: 0 <= i < |names| ==> names[i] in w.base.store
    ensures forall i :: 0 <= i < |names| ==> names[i] in p.store
    ensures ShowAll(w.base.store, names) == seq(|names|, i requires 0 <= i < |names| => PlainInfo(p.store[names[i]]))
  {
    forall i | 0 <= i < |names| ensures ShowInfo(w.base.store[names[i]]) == PlainInfo(p.store[names[i]]) {
      assert LooksAt(cfg, w.base.store[names[i]], p.store[names[i]]);
    }
  }

  lemma MatchingAnswers(cfg: Config, b: Both, op: Op)
    requires Matches(cfg, b) && Legal(cfg, b.wrapped, op) && Attended(cfg, b.wrapped, op)
    ensures op.List? ==> forall i :: 0 <= i < |op.names| ==> op.names[i] in b.plain.store
    ensures Answers(cfg, b.wrapped, op) == PlainAnswers(cfg, b.plain, op)
  {
    match op
    case Get(n, _) => if n in b.plain.store { assert LooksAt(cfg, b.wrapped.base.store[n], b.plain.store[n]); }
    case Head(n, _) => if n in b.plain.store { assert LooksAt(cfg, b.wrapped.base.store[n], b.plain.store[n]); }
    case List(names, _) => MatchingListing(cfg, b.wrapped, b.plain, names);
    case _ =>
  }

  lemma RunMatches(cfg: Config, ops: seq<Op>, b: Both)
    requires LawfulCrypto(cfg.crypto) && Reaches(Next(cfg), START, ops, b)
    ensures Matches(cfg, b)
  {
    var next, inv := Next(cfg), (c: Both) => Matches(cfg, c);
    forall c, o | inv(c) && next(c, o).Some? ensures inv(next(c, o).value) { StepMatches(cfg, c, o); }
    RunKeeps(next, inv, START, ops, b);
  }

  /**
   * Transparent encryption: over every run of put, get, head, list, delete and multipart calls and restarts, any of
   * whose backend calls may fail, every answer of the wrapper is the answer of a plain store - the original bytes, the
   * original size, the user's metadata plus the SSE marker - and completing an upload is putting its parts glued
   * together; as long as no upload is completed that an abort was attempted of, or that was begun before a restart.
   */
  lemma EncryptionIsTransparent(cfg: Config, ops: seq<Op>, b: Both, op: Op)
    requires LawfulCrypto(cfg.crypto) && Reaches(Next(cfg), START, ops, b)
    requires Legal(cfg, b.wrapped, op) && Attended(cfg, b.wrapped, op)
    ensures op.List? ==> forall i :: 0 <= i < |op.names| ==> op.names[i] in b.plain.store
    ensures Answers(cfg, b.wrapped, op) == PlainAnswers(cfg, b.plain, op)
  {
    RunMatches(cfg, ops, b);
    MatchingAnswers(cfg, b, op);
  }

  // ---------------------------------------------------------------- uploads the wrapper has forgotten

  /** A completion that works on a forgotten upload reports success and leaves the object in the clear and unmarked. */
  lemma ForgottenInTheClear(cfg: Config, b: Both, op: Op)
    requires LawfulCrypto(cfg.crypto) && Matches(cfg, b) && Legal(cfg, b.wrapped, op) && Assembling(b.wrapped, op)
    requires cfg.enabled && op.id !in b.wrapped.pending
    ensures Answers(cfg, b.wrapped, op) == Done(true)
    ensures var up := b.plain.uploads[op.id];
            var data := Assembled(up.parts, op.numbers);
            && op.n in After(cfg, b.wrapped, op).base.store
            && After(cfg, b.wrapped, op).base.store[op.n] == Stored(data, up.meta) && !IsEncrypted(up.meta)
            && LooksAt(cfg, Stored(data, up.meta), PlainObject(data, up.meta, false))
  {
    UnmarkedShows(cfg, Assembled(b.plain.uploads[op.id].parts, op.numbers), b.plain.uploads[op.id].meta);
  }

  /** The call answers as the plain store does, and afterwards the wrapper still looks like it. */
  ghost predicate LikePlain(cfg: Config, b: Both, op: Op)
    requires Legal(cfg, b.wrapped, op)
    requires op.List? ==> forall i :: 0 <= i < |op.names| ==> op.names[i] in b.plain.store
  {
    Answers(cfg, b.wrapped, op) == PlainAnswers(cfg, b.plain, op) && Matches(cfg, Stepped(cfg, b, op))
  }

  /**
   * Transparency, exactly: wherever a run has led that looked plain so far, the next call looks plain - answer and all
   * that is held - if and only if it is not a completion, carried out by the backend with encryption enabled, of an
   * upload that an abort was attempted of, failed aborts included, or that was begun before a restart.
   */
  lemma TransparentExactly(cfg: Config, ops: seq<Op>, b: Both, op: Op)
    requires LawfulCrypto(cfg.crypto) && Reaches(Next(cfg), START, ops, b) && Legal(cfg, b.wrapped, op)
    ensures op.List? ==> forall i :: 0 <= i < |op.names| ==> op.names[i] in b.plain.store
    ensures LikePlain(cfg, b, op) <==> !(cfg.enabled && Assembling(b.wrapped, op) && op.id in b.orphans)
  {
    RunMatches(cfg, ops, b);
    if Attended(cfg, b.wrapped, op) {
      StepMatches(cfg, b, op);
      MatchingAnswers(cfg, b, op);
    } else {
      ForgottenInTheClear(cfg, b, op);
      if op.fate.Works? {
        assert !LooksAt(cfg, After(cfg, b.wrapped, op).base.store[op.n], PlainAfter(cfg, b.plain, op).store[op.n]);
      }
    }
  }

  /**
   * What a marked object's bytes are: its data sealed under the key and nonce in its metadata, and that key in turn is
   * there sealed under the master key.
   */
  lemma MarkedIsSealed(cfg: Config, w: Wrapped, p: Plain, n: Name) returns (dek: Bytes, nonce: Bytes, keyNonce: Bytes)
    requires LawfulCrypto(cfg.crypto) && Looks(cfg, w, p) && n in p.store && p.store[n].marked
    ensures n in w.base.store
    ensures var meta := w.base.store[n].meta;
            var c := cfg.crypto;
            && w.base.store[n].bytes == c.scheme.seal(dek, nonce, p.store[n].data)
            && c.codec.decode(Lookup(meta, "x-amz-meta-encryption-nonce")) == Some(nonce)
            && c.codec.decode(Lookup(meta, "x-amz-meta-encryption-dek"))
                 == Some(keyNonce + c.scheme.seal(c.masterKey, keyNonce, dek))
            && |keyNonce| == 12
  {
    var st, c := w.base.store[n], cfg.crypto;
    assert LooksAt(cfg, st, p.store[n]);
    ShowExactly(cfg, st, p.store[n].data);
    var raw := c.codec.decode(Lookup(st.meta, "x-amz-meta-encryption-dek")).value;
    nonce, keyNonce := c.codec.decode(Lookup(st.meta, "x-amz-meta-encryption-nonce")).value, raw[..12];
    dek := c.scheme.open(c.masterKey, raw[..12], raw[12..]).value;
    assert raw == raw[..12] + raw[12..];
  }

  /**
   * Whatever plain store the wrapper looked like, after an attended call it looks like that store after the same call.
   */
  ghost predicate Refines(cfg: Config, before: Wrapped, after: Wrapped, op: Op) {
    LawfulCrypto(cfg.crypto) && Legal(cfg, before, op) && Attended(cfg, before, op) ==>
      forall p :: Looks(cfg, before, p) ==> Looks(cfg, after, PlainAfter(cfg, p, op))
  }

  lemma StepRefines(cfg: Config, before: Wrapped, op: Op)
    ensures Refines(cfg, before, After(cfg, before, op), op)
  {
    if LawfulCrypto(cfg.crypto) && Legal(cfg, before, op) && Attended(cfg, before, op) {
      forall p | Looks(cfg, before, p) ensures Looks(cfg, After(cfg, before, op), PlainAfter(cfg, p, op)) {
        var orphans := before.base.uploads.Keys - before.pending.Keys;
        StepMatches(cfg, Both(before, p, orphans), op);
      }
    }
  }

  // ---------------------------------------------------------------- the classes

  class Backend {
    var store: map<Name, Stored>
    var uploads: map<UploadId, Upload>

    ghost function State(): Base
      reads this
    {
      Base(store, uploads)
    }

    constructor ()
      ensures State() == Base(map[], map[])
    {
      store, uploads := map[], map[];
    }

    method CompleteMultipartUpload(id: UploadId, n: Name, numbers: seq<int>, fails: bool) returns (ok: bool)
      modifies this
      ensures ok == (!fails && Completes(old(State()), id, numbers))
      ensures State() == if !ok then old(State())
                         else Base(old(store)[n := OfUpload(old(uploads)[id], numbers)], old(uploads) - {id})
    {
      if fails || id !in uploads { return false; }
      var up := uploads[id];
      var data: Bytes := [];
      for i := 0 to |numbers|
        invariant forall j :: 0 <= j < i ==> numbers[j] in up.parts
        invariant data == Assembled(up.parts, numbers[..i])
      {
        if numbers[i] !in up.parts { return false; }
        assert numbers[..i + 1][..i] == numbers[..i];
        data := data + up.parts[numbers[i]];
      }
      assert numbers[..|numbers|] == numbers;
      store, uploads := store[n := Stored(data, up.meta)], uploads - {id};
      ok := true;
    }
  }

  class EncryptedBackend {
    const cfg: Config
    const backend: Backend
    var multipartUploads: map<UploadId, Meta>

    ghost function State(): Wrapped
      reads this, backend
    {
      Wrapped(backend.State(), multipartUploads)
    }

    /** A new wrapper remembers nothing: around a backend in use this is what a restart does. */
    constructor (cfg: Config, backend: Backend)
      ensures this.cfg == cfg && this.backend == backend && State() == Wrapped(backend.State(), map[])
      ensures forall pending :: State() == After(cfg, Wrapped(backend.State(), pending), Restart)
    {
      this.cfg, this.backend, multipartUploads := cfg, backend, map[];
    }

    method GetObject(n: Name, fails: bool) returns (o: Option<Shown>)
      ensures o == if !fails && n in backend.store then Show(cfg, backend.store[n]) else None
      ensures fails || n !in backend.store ==> o == None
      ensures !fails && n in backend.store ==> forall body :: (o.Some? && o.value.body == body) <==>
                ShownAs(cfg, backend.store[n], body)
      ensures forall p :: Looks(cfg, State(), p) ==>
                o == if !fails && n in p.store then Some(PlainView(p.store[n])) else None
    {
      if fails || n !in backend.store { return None; }
      assert forall p :: Looks(cfg, State(), p) ==> n in p.store && LooksAt(cfg, backend.store[n], p.store[n]);
      forall body
        ensures (Show(cfg, backend.store[n]).Some? && Show(cfg, backend.store[n]).value.body == body) <==>
                  ShownAs(cfg, backend.store[n], body)
      {
        ShowExactly(cfg, backend.store[n], body);
      }
      var obj := backend.store[n];
      var isEncrypted := Lookup(obj.meta, ALGORITHM) != "";
      if isEncrypted && !ValidMeta(obj.meta) { return None; }
      var body, size := obj.bytes, |obj.bytes|;
      if isEncrypted {
        if !cfg.enabled { return None; }
        var plain := Decrypt(cfg.crypto, obj.bytes, obj.meta);
        if plain.None? { return None; }
        body, size := plain.value, OriginalSize(obj.meta, size);
      }
      var meta := CleanedInPlace(obj.meta);
      if isEncrypted { meta := meta[SSE := "AES256"]; }
      return Some(Shown(body, size, meta));
    }

    /** cleanMetadata: five deletions. */
    method CleanedInPlace(metadata: Meta) returns (m: Meta)
      ensures m == metadata - RESERVED
    {
      m := metadata - {ALGORITHM};
      m := m - {KEY_ID};
      m := m - {DEK};
      m := m - {NONCE};
      m := m - {ENCRYPTED_SIZE};
    }

    method PutObject(n: Name, data: Bytes, size: int, metadata: Meta, r: Randomness, fails: bool) returns (ok: bool)
      requires LawfulCrypto(cfg.crypto) && RandomnessOk(r)
      modifies backend
      ensures State() == After(cfg, old(State()), Put(n, data, size, metadata, r, fails)) && ok == !fails
      ensures Refines(cfg, old(State()), State(), Put(n, data, size, metadata, r, fails))
      ensures ok ==> n in backend.store
      ensures ok && cfg.enabled ==> StoredSealed(cfg.crypto, backend.store[n], data, r)
      ensures ok && !cfg.enabled ==> backend.store[n] == Stored(data, metadata)
    {
      StepRefines(cfg, State(), Put(n, data, size, metadata, r, fails));
      if !cfg.enabled {
        if !fails { backend.store := backend.store[n := Stored(data, metadata)]; }
        return !fails;
      }
      var encrypted := Ciphertext(cfg.crypto, r, data);
      var encMetadata := EncryptionMeta(cfg.crypto, r, data, size);
      var merged := (metadata + encMetadata)[SSE := "AES256"];
      ConstantsDistinct();
      MetaSealed(cfg.crypto, r, data, size, metadata);
      if !ValidMeta(encMetadata) { return false; }
      if !fails { backend.store := backend.store[n := Stored(encrypted, merged)]; }
      return !fails;
    }

    method HeadObject(n: Name, fails: bool) returns (i: Option<ShownInfo>)
      ensures i == if !fails && n in backend.store then Some(ShowInfo(backend.store[n])) else None
      ensures forall p :: Looks(cfg, State(), p) ==>
                i == if !fails && n in p.store then Some(PlainInfo(p.store[n])) else None
    {
      if fails || n !in backend.store { return None; }
      assert forall p :: Looks(cfg, State(), p) ==> n in p.store && LooksAt(cfg, backend.store[n], p.store[n]);
      var item := ProcessItem(backend.store[n]);
      i := Some(item);
    }

    /** processListItem, which HeadObject repeats. */
    method ProcessItem(st: Stored) returns (item: ShownInfo)
      ensures item == ShowInfo(st)
    {
      var isEncrypted := Lookup(st.meta, ALGORITHM) != "";
      var size := |st.bytes|;
      if isEncrypted { size := OriginalSize(st.meta, size); }
      var meta := CleanedInPlace(st.meta);
      if isEncrypted { meta := meta[SSE := "AES256"]; }
      item := ShownInfo(size, meta);
    }

    /** Both listing calls: the backend's items, each cleaned. */
    method ListObjects(names: seq<Name>, fails: bool) returns (items: Option<seq<ShownInfo>>)
      requires forall i :: 0 <= i < |names| ==> names[i] in backend.store
      ensures items == if fails then None else Some(ShowAll(backend.store, names))
      ensures forall p :: Looks(cfg, State(), p) && items.Some? ==>
                forall i :: 0 <= i < |names| ==> names[i] in p.store && items.value[i] == PlainInfo(p.store[names[i]])
    {
      if fails { return None; }
      var shown := [];
      for i := 0 to |names|
        invariant shown == ShowAll(backend.store, names[..i])
      {
        var item := ProcessItem(backend.store[names[i]]);
        shown := shown + [item];
      }
      assert names[..|names|] == names;
      forall p, i | Looks(cfg, State(), p) && 0 <= i < |names|
        ensures names[i] in p.store && shown[i] == PlainInfo(p.store[names[i]])
      {
        assert LooksAt(cfg, backend.store[names[i]], p.store[names[i]]);
      }
      items := Some(shown);
    }

    method DeleteObject(n: Name, fails: bool) returns (ok: bool)
      modifies backend
      ensures State() == After(cfg, old(State()), Delete(n, fails)) && ok == !fails
      ensures Refines(cfg, old(State()), State(), Delete(n, fails))
    {
      StepRefines(cfg, State(), Delete(n, fails));
      if !fails { backend.store := backend.store - {n}; }
      ok := !fails;
    }

    method InitiateMultipartUpload(id: UploadId, n: Name, metadata: Meta, fails: bool) returns (ok: bool)
      modifies this, backend
      ensures State() == After(cfg, old(State()), Initiate(id, n, metadata, fails)) && ok == !fails
      ensures Refines(cfg, old(State()), State(), Initiate(id, n, metadata, fails))
    {
      StepRefines(cfg, State(), Initiate(id, n, metadata, fails));
      if fails { return false; }
      backend.uploads := backend.uploads[id := Upload(n, metadata, map[])];
      if cfg.enabled { multipartUploads := multipartUploads[id := metadata]; }
      ok := true;
    }

    method UploadPart(id: UploadId, number: int, data: Bytes, fails: bool) returns (ok: bool)
      modifies backend
      ensures State() == After(cfg, old(State()), Op.UploadPart(id, number, data, fails))
      ensures ok == (!fails && id in old(backend.uploads))
      ensures Refines(cfg, old(State()), State(), Op.UploadPart(id, number, data, fails))
    {
      StepRefines(cfg, State(), Op.UploadPart(id, number, data, fails));
      ok := !fails && id in backend.uploads;
      if ok {
        var up := backend.uploads[id];
        backend.uploads := backend.uploads[id := up.(parts := up.parts[number := data])];
      }
    }

    method CompleteMultipartUpload(id: UploadId, n: Name, numbers: seq<int>, r: Randomness, fate: Fate)
        returns (ok: bool)
      requires RandomnessOk(r)
      modifies this, backend
      ensures State() == After(cfg, old(State()), Complete(id, n, numbers, r, fate))
      ensures Refines(cfg, old(State()), State(), Complete(id, n, numbers, r, fate))
      ensures ok == (Completes(old(backend.State()), id, numbers)
                     && (fate.Works? || (!fate.CompleteFails? && (!cfg.enabled || id !in old(multipartUploads)))))
      ensures ok ==> n in backend.store && id in old(backend.uploads)
      ensures ok && cfg.enabled && id in old(multipartUploads) && LawfulCrypto(cfg.crypto) ==>
                StoredSealed(cfg.crypto, backend.store[n], Assembled(old(backend.uploads)[id].parts, numbers), r)
    {
      StepRefines(cfg, State(), Complete(id, n, numbers, r, fate));
      if !cfg.enabled || id !in multipartUploads {
        ok := backend.CompleteMultipartUpload(id, n, numbers, fate.CompleteFails?);
        return;
      }
      var original := multipartUploads[id];
      ok := backend.CompleteMultipartUpload(id, n, numbers, fate.CompleteFails?);
      if !ok || fate.GetFails? { return false; }
      var obj := backend.store[n];
      var encrypted := Ciphertext(cfg.crypto, r, obj.bytes);
      var merged := original + obj.meta;
      if LawfulCrypto(cfg.crypto) { MetaSealed(cfg.crypto, r, obj.bytes, |obj.bytes|, merged); }
      merged := merged + EncryptionMeta(cfg.crypto, r, obj.bytes, |obj.bytes|);
      merged := merged[SSE := "AES256"];
      if fate.PutFails? { return false; }
      backend.store := backend.store[n := Stored(encrypted, merged)];
      multipartUploads := multipartUploads - {id};
    }

    /** What was remembered of the upload is gone even when the backend keeps the upload. */
    method AbortMultipartUpload(id: UploadId, fails: bool) returns (ok: bool)
      modifies this, backend
      ensures State() == After(cfg, old(State()), Abort(id, fails)) && ok == !fails
      ensures Refines(cfg, old(State()), State(), Abort(id, fails))
    {
      StepRefines(cfg, State(), Abort(id, fails));
      multipartUploads := multipartUploads - {id};
      if !fails { backend.uploads := backend.uploads - {id}; }
      ok := !fails;
    }
  }
}
