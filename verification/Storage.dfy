/**
 `Storage`: the optional AES-256-GCM layer in front of an object store. The cipher is an abstract pair
 of functions with the authenticated-encryption laws; MD5 is an uninterpreted function.
 */
module Storage {
  import opened Common

  const NONCE_LENGTH: nat := 12
  const TAG_LENGTH: nat := 16

  type Nonce = n: Bytes | |n| == NONCE_LENGTH witness seq(NONCE_LENGTH, _ => 0)

  datatype Cipher = Cipher(seal: (Nonce, Bytes) -> Bytes, unseal: (Nonce, Bytes) -> Option<Bytes>)

  /** What is assumed of AES-GCM: unsealing undoes sealing, and a sealed text is longer by the tag. */
  ghost predicate Lawful(cipher: Option<Cipher>) {
    cipher.Some? ==>
      forall nonce: Nonce, body: Bytes ::
        var sealed := cipher.value.seal(nonce, body);
        cipher.value.unseal(nonce, sealed) == Some(body) && |sealed| == |body| + TAG_LENGTH
  }

  /** The bytes `put` hands to the backend. */
  function Framed(cipher: Option<Cipher>, nonce: Nonce, body: Bytes): Bytes {
    match cipher
    case Some(c) => nonce + c.seal(nonce, body)
    case None => body
  }

  /** What `get` makes of the bytes found in the backend, given the row's encrypted flag. */
  function Unframed(cipher: Option<Cipher>, encrypted: bool, raw: Bytes): Result<Bytes> {
    if !encrypted then Ok(raw)
    else if cipher.None? || |raw| < NONCE_LENGTH then Err(Other)
    else
      match cipher.value.unseal(raw[..NONCE_LENGTH], raw[NONCE_LENGTH..])
      case Some(body) => Ok(body)
      case None => Err(Other)
  }

  /** Written under a key setting, bytes read back as themselves exactly when the flag matches the setting. */
  lemma ReadBackIffFlagMatches(cipher: Option<Cipher>, nonce: Nonce, body: Bytes, flag: bool)
    requires Lawful(cipher)
    ensures Unframed(cipher, flag, Framed(cipher, nonce, body)) == Ok(body) <==> flag == cipher.Some?
  {
    if cipher.Some? {
      var sealed := cipher.value.seal(nonce, body);
      assert (nonce + sealed)[..NONCE_LENGTH] == nonce;
      assert (nonce + sealed)[NONCE_LENGTH..] == sealed;
    }
  }

  /** With a key, what is stored is the nonce and the sealed body, 28 bytes longer; without one, the body. */
  lemma StoredForm(cipher: Option<Cipher>, nonce: Nonce, body: Bytes)
    requires Lawful(cipher)
    ensures var raw := Framed(cipher, nonce, body);
            if cipher.None? then raw == body
            else
              && |raw| == |body| + 28 && raw[..12] == nonce
              && raw[12..] == cipher.value.seal(nonce, body) && cipher.value.unseal(raw[..12], raw[12..]) == Some(body)
  {
    if cipher.Some? {
      var sealed := cipher.value.seal(nonce, body);
      assert (nonce + sealed)[..12] == nonce && (nonce + sealed)[12..] == sealed;
    }
  }

  // ---------------------------------------------------------------------------
  // The wrapper and the plaintext map it stands for
  // ---------------------------------------------------------------------------

  class Storage {
    var backend: map<string, Bytes>
    const cipher: Option<Cipher>
    const md5: Bytes -> string

    constructor (cipher: Option<Cipher>, md5: Bytes -> string)
      ensures backend == map[] && this.cipher == cipher && this.md5 == md5
    {
      this.backend := map[];
      this.cipher := cipher;
      this.md5 := md5;
    }

    method Put(key: string, body: Bytes, nonce: Nonce) returns (etag: string)
      modifies this
      ensures backend == old(backend)[key := Framed(cipher, nonce, body)]
      ensures etag == md5(body)
    {
      etag := md5(body);
      var onDisk := body;
      if cipher.Some? {
        var sealed := cipher.value.seal(nonce, body);
        var out: Bytes := [];
        out := out + nonce;
        out := out + sealed;
        assert out == nonce + sealed;
        onDisk := out;
      }
      backend := backend[key := onDisk];
    }

    method Get(key: string, encrypted: bool) returns (r: Result<Option<Bytes>>)
      ensures r == Fetch(cipher, backend, key, encrypted)
    {
      if key !in backend { return Ok(None); }
      var raw := backend[key];
      if encrypted {
        if cipher.None? { return Err(Other); }
        if |raw| < NONCE_LENGTH { return Err(Other); }
        var nonce, sealed := raw[..NONCE_LENGTH], raw[NONCE_LENGTH..];
        match cipher.value.unseal(nonce, sealed) {
          case None => return Err(Other);
          case Some(plaintext) => return Ok(Some(plaintext));
        }
      }
      r := Ok(Some(raw));
    }

    method Delete(key: string)
      modifies this
      ensures backend == old(backend) - {key}
    {
      backend := backend - {key};
    }
  }

  function Fetch(cipher: Option<Cipher>, backend: map<string, Bytes>, key: string, encrypted: bool)
    : Result<Option<Bytes>>
  {
    if key !in backend then Ok(None)
    else
      match Unframed(cipher, encrypted, backend[key])
      case Err(e) => Err(e)
      case Ok(body) => Ok(Some(body))
  }

  datatype Op = PutOp(key: string, body: Bytes, nonce: Nonce) | GetOp(key: string) | DeleteOp(key: string)
  datatype Reply = Etag(etag: string) | Found(r: Result<Option<Bytes>>) | Deleted

  /** One call on the wrapper, reads using the flag that the setting gives every row. */
  function WrapperStep(cipher: Option<Cipher>, md5: Bytes -> string, backend: map<string, Bytes>, op: Op)
    : (map<string, Bytes>, Reply)
  {
    match op
    case PutOp(key, body, nonce) => (backend[key := Framed(cipher, nonce, body)], Etag(md5(body)))
    case GetOp(key) => (backend, Found(Fetch(cipher, backend, key, cipher.Some?)))
    case DeleteOp(key) => (backend - {key}, Deleted)
  }

  /** The same call on a map from keys to plaintexts. */
  function PlainStep(md5: Bytes -> string, plain: map<string, Bytes>, op: Op): (map<string, Bytes>, Reply) {
    match op
    case PutOp(key, body, _) => (plain[key := body], Etag(md5(body)))
    case GetOp(key) => (plain, Found(Ok(if key in plain then Some(plain[key]) else None)))
    case DeleteOp(key) => (plain - {key}, Deleted)
  }

  function WrapperRun(
    cipher: Option<Cipher>, md5: Bytes -> string, backend: map<string, Bytes>, ops: seq<Op>): seq<Reply>
    decreases |ops|
  {
    if ops == [] then []
    else
      var (next, reply) := WrapperStep(cipher, md5, backend, ops[0]);
      [reply] + WrapperRun(cipher, md5, next, ops[1..])
  }

  function PlainRun(md5: Bytes -> string, plain: map<string, Bytes>, ops: seq<Op>): seq<Reply>
    decreases |ops|
  {
    if ops == [] then []
    else
      var (next, reply) := PlainStep(md5, plain, ops[0]);
      [reply] + PlainRun(md5, next, ops[1..])
  }

  /** `backend` holds, framed, exactly the plaintexts of `plain`. */
  ghost predicate Holds(cipher: Option<Cipher>, backend: map<string, Bytes>, plain: map<string, Bytes>) {
    && backend.Keys == plain.Keys
    && forall key | key in plain :: Unframed(cipher, cipher.Some?, backend[key]) == Ok(plain[key])
  }

  /** Under one key setting no sequence of calls can tell the wrapper from a plaintext map. */
  lemma {:induction false} ObservablyPlaintext(
    cipher: Option<Cipher>, md5: Bytes -> string, backend: map<string, Bytes>, plain: map<string, Bytes>, ops: seq<Op>)
    requires Lawful(cipher) && Holds(cipher, backend, plain)
    ensures WrapperRun(cipher, md5, backend, ops) == PlainRun(md5, plain, ops)
    decreases |ops|
  {
    if ops != [] {
      var op := ops[0];
      if op.PutOp? { ReadBackIffFlagMatches(cipher, op.nonce, op.body, cipher.Some?); }
      ObservablyPlaintext(cipher, md5, WrapperStep(cipher, md5, backend, op).0, PlainStep(md5, plain, op).0, ops[1..]);
    }
  }
}
