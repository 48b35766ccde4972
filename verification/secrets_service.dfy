/** The secrets vault (apps/backend/src/modules/secrets/secrets.service.ts).
    Values are encrypted with AES-256-GCM under a process-wide key and kept
    as base64 of `iv(12) ‖ tag(16) ‖ ciphertext`. The iv, the id's random
    bytes and the clock are parameters. */
module SecretsService {
  import opened Wrappers
  import opened Octets
  import opened Text
  import opened Js
  import opened Primitives
  import opened OrderedMap
  import opened Ids
  import Hex

  // ---------------------------------------------------------------- key

  const DevKeyPhrase: string := "dev-key-change-me"

  /** The key: the configured hex string when it is exactly 64 characters
      long (decoded the way Node decodes hex, up to the first invalid
      pair), otherwise the SHA-256 digest of a fixed phrase. An unset
      variable counts as the empty string. */
  function SelectKey(c: Crypto, configured: Option<string>): (key: Bytes)
    ensures |configured.GetOr("")| == 64 ==> key == Hex.Decode(configured.GetOr(""))
    ensures |configured.GetOr("")| != 64 ==> key == c.sha256(c.utf8Encode(DevKeyPhrase))
  {
    var hex := configured.GetOr("");
    if |hex| == 64 then Hex.Decode(hex) else c.sha256(c.utf8Encode(DevKeyPhrase))
  }

  /** The key is 256 bits, except when the configured 64 characters are
      not all hexadecimal, in which case it is shorter. */
  lemma SelectKeyLength(c: Crypto, configured: Option<string>)
    requires DigestLaws(c)
    ensures |configured.GetOr("")| != 64 ==> |SelectKey(c, configured)| == 32
    ensures |configured.GetOr("")| == 64 ==>
      (|SelectKey(c, configured)| == 32 <==> Hex.AllHex(configured.GetOr("")))
  {
    if |configured.GetOr("")| == 64 {
      Hex.DecodeFullLength(configured.GetOr(""));
    }
  }

  /** Configuring the hex of a 256-bit key selects that key. */
  lemma ConfiguredKeyIsUsed(c: Crypto, key: Bytes)
    requires |key| == 32
    ensures SelectKey(c, Some(Hex.Encode(key))) == key
  {
    Hex.DecodeEncode(key);
  }

  // ---------------------------------------------------------------- envelope

  type Iv = b: Bytes | |b| == 12 witness [0, 0, 0, 0, 0, 0, 0, 0, 0, 0, 0, 0]

  datatype Envelope = Envelope(iv: Bytes, tag: Bytes, data: Bytes)

  function Pack(e: Envelope): Bytes {
    e.iv + e.tag + e.data
  }

  /** `subarray(0, 12)`, `subarray(12, 28)`, `subarray(28)`: the offsets are
      clamped to the length, so the three parts always cover the input. */
  function Unpack(raw: Bytes): (e: Envelope)
    ensures Pack(e) == raw
    ensures |raw| >= 28 ==> |e.iv| == 12 && |e.tag| == 16
    ensures |e.iv| <= 12 && |e.tag| <= 16
  {
    var a := if |raw| < 12 then |raw| else 12;
    var b := if |raw| < 28 then |raw| else 28;
    assert raw[..a] + raw[a..b] + raw[b..] == raw;
    Envelope(raw[..a], raw[a..b], raw[b..])
  }

  /** With a 12-byte iv and a 16-byte tag the fixed offsets recover the
      three parts exactly. */
  lemma UnpackPack(e: Envelope)
    requires |e.iv| == 12 && |e.tag| == 16
    ensures Unpack(Pack(e)) == e
  {
    var raw := Pack(e);
    assert raw[..12] == e.iv;
    assert raw[12..28] == e.tag;
    assert raw[28..] == e.data;
  }

  /** `encrypt`; `None` where `createCipheriv` throws because the key is
      not 256 bits. */
  function Encrypt(c: Crypto, key: Bytes, iv: Iv, plain: string): (r: Option<string>)
    ensures r.Some? <==> |key| == 32
  {
    if |key| != 32 then None
    else
      var sealed := c.aesGcmSeal(key, iv, c.utf8Encode(plain));
      Some(c.base64Encode(Pack(Envelope(iv, sealed.tag, sealed.data))))
  }

  /** `decrypt`; `None` where Node throws (a bad key, a wrong tag). */
  function Decrypt(c: Crypto, key: Bytes, text: string): (r: Option<string>)
    ensures |key| != 32 ==> r.None?
  {
    if |key| != 32 then None
    else
      var e := Unpack(c.base64Decode(text));
      match c.aesGcmOpen(key, e.iv, e.tag, e.data)
      case None => None
      case Some(p) => Some(c.utf8Decode(p))
  }

  /** Decryption inverts encryption under the same key. */
  lemma DecryptEncrypt(c: Crypto, key: Bytes, iv: Iv, plain: string)
    requires Lawful(c) && |key| == 32
    ensures Decrypt(c, key, Encrypt(c, key, iv, plain).value) == Some(plain)
  {
    var p := c.utf8Encode(plain);
    var sealed := c.aesGcmSeal(key, iv, p);
    var e := Envelope(iv, sealed.tag, sealed.data);
    assert |sealed.tag| == 16;
    UnpackPack(e);
    assert c.base64Decode(c.base64Encode(Pack(e))) == Pack(e);
    assert c.aesGcmOpen(key, iv, sealed.tag, sealed.data) == Some(p);
  }

  // ---------------------------------------------------------------- store

  datatype Kind = Ssh | Domain | ApiKey

  function KindName(k: Kind): string {
    match k
    case Ssh => "ssh"
    case Domain => "domain"
    case ApiKey => "api_key"
  }

  /** The kind a request names: exactly one of the three strings. */
  function ParseKind(v: JsValue): (r: Option<Kind>)
    ensures r.Some? <==> v == Str("ssh") || v == Str("domain") || v == Str("api_key")
    ensures r.Some? ==> Str(KindName(r.value)) == v
  {
    if v == Str("ssh") then Some(Ssh)
    else if v == Str("domain") then Some(Domain)
    else if v == Str("api_key") then Some(ApiKey)
    else None
  }

  datatype SecretRecord = SecretRecord(
    id: string, appId: string, kind: Kind, labelText: string,
    encryptedPayload: string, metadata: JsValue, createdAt: string, updatedAt: string)

  /** A record without its ciphertext: what listing shows. */
  datatype SecretView = SecretView(
    id: string, appId: string, kind: Kind, labelText: string,
    metadata: JsValue, createdAt: string, updatedAt: string)

  function View(r: SecretRecord): SecretView {
    SecretView(r.id, r.appId, r.kind, r.labelText, r.metadata, r.createdAt, r.updatedAt)
  }

  /** Everything but the ciphertext survives in the view. */
  lemma ViewDropsOnlyPayload(a: SecretRecord, b: SecretRecord)
    ensures View(a) == View(b) <==> a == b.(encryptedPayload := a.encryptedPayload)
  {
  }

  type Vault = OMap<SecretRecord>

  /** Every record is stored under its own id. */
  predicate KeyedById(v: Vault) {
    forall k :: k in v.entries ==> v.entries[k].id == k
  }

  /** `listByApp`: the views of the records of one app, in insertion order
      (`ListByAppExact` states what is listed, `ListAfterInsert` the order). */
  function ListByApp(v: Vault, appId: string): (r: seq<SecretView>)
    ensures |r| <= |Values(v)|
  {
    Views(Filter(Values(v), OfApp(appId)))
  }

  /** The filter of `listByApp`. */
  function OfApp(appId: string): SecretRecord -> bool {
    (rec: SecretRecord) => rec.appId == appId
  }

  /** The views of a list of records, in order. */
  function Views(recs: seq<SecretRecord>): (r: seq<SecretView>)
    ensures |r| == |recs|
    ensures forall i :: 0 <= i < |recs| ==> r[i] == View(recs[i])
  {
    seq(|recs|, i requires 0 <= i < |recs| => View(recs[i]))
  }

  lemma ViewsConcat(a: seq<SecretRecord>, b: seq<SecretRecord>)
    ensures Views(a + b) == Views(a) + Views(b)
  {
    assert forall i :: 0 <= i < |a| ==> (a + b)[i] == a[i];
    assert forall i :: |a| <= i < |a| + |b| ==> (a + b)[i] == b[i - |a|];
  }

  /** Listing shows exactly the views of the app's records. */
  lemma ListByAppExact(v: Vault, appId: string, x: SecretView)
    ensures x in ListByApp(v, appId) <==>
      exists k :: k in v.entries && v.entries[k].appId == appId && View(v.entries[k]) == x
  {
    var keep := OfApp(appId);
    var kept := Filter(Values(v), keep);
    var r := ListByApp(v, appId);
    if x in r {
      var i :| 0 <= i < |r| && r[i] == x;
      assert kept[i] in kept;
      InValues(v, kept[i]);
      var k :| Find(v, k) == Some(kept[i]);
      assert v.entries[k].appId == appId && View(v.entries[k]) == x;
    }
    if exists k :: k in v.entries && v.entries[k].appId == appId && View(v.entries[k]) == x {
      var k :| k in v.entries && v.entries[k].appId == appId && View(v.entries[k]) == x;
      var rec := v.entries[k];
      InValues(v, rec);
      assert Find(v, k) == Some(rec);
      assert rec in kept;
      var i :| 0 <= i < |kept| && kept[i] == rec;
      assert r[i] == x;
    }
  }

  /** Listing follows insertion order: a record stored under a new key is
      listed last among its app's records, and other apps' listings do not
      change. */
  lemma ListAfterInsert(v: Vault, k: string, rec: SecretRecord, appId: string)
    requires !Has(v, k)
    ensures rec.appId == appId ==> ListByApp(Set(v, k, rec), appId) == ListByApp(v, appId) + [View(rec)]
    ensures rec.appId != appId ==> ListByApp(Set(v, k, rec), appId) == ListByApp(v, appId)
  {
    var keep := OfApp(appId);
    var vals := Values(v);
    ValuesAfterInsert(v, k, rec);
    var before, tail := Filter(vals, keep), Filter([rec], keep);
    FilterConcat(vals, [rec], keep);
    FilterOne(rec, keep);
    ViewsConcat(before, tail);
    var shown := if rec.appId == appId then [View(rec)] else [];
    assert Views(tail) == shown;
    assert ListByApp(Set(v, k, rec), appId) == Views(before) + shown;
  }

  lemma FilterOne(rec: SecretRecord, keep: SecretRecord -> bool)
    ensures Filter([rec], keep) == if keep(rec) then [rec] else []
  {
    assert [rec][1..] == [];
  }

  /** `create`: a new record under a generated id, stamped twice with the
      same instant, holding the encryption of the value. Nothing else
      changes. An id that is already taken is overwritten, as `Map.set`
      does. */
  function Create(c: Crypto, key: Bytes, v: Vault, appId: string, kind: Kind, labelText: string, plain: string,
                  metadata: JsValue, now: string, random: Random6, iv: Iv): (r: Result<(Vault, SecretRecord), string>)
    ensures r.Success? <==> |key| == 32
    ensures r.Success? ==>
      var (v', rec) := r.value;
      && rec.id == CreateId("sec", random)
      && rec.appId == appId && rec.kind == kind && rec.labelText == labelText && rec.metadata == metadata
      && rec.createdAt == now && rec.updatedAt == now
      && Some(rec.encryptedPayload) == Encrypt(c, key, iv, plain)
      && Find(v', rec.id) == Some(rec)
      && forall k :: k != rec.id ==> Find(v', k) == Find(v, k)
  {
    match Encrypt(c, key, iv, plain)
    case None => Failure("RangeError: Invalid key length")
    case Some(payload) =>
      var rec := SecretRecord(CreateId("sec", random), appId, kind, labelText, payload, metadata, now, now);
      Success((Set(v, rec.id, rec), rec))
  }

  datatype Revealed = Absent | Plain(text: string) | Corrupt

  /** `reveal`: nothing for an unknown id, otherwise the decryption of the
      stored payload, which throws when the payload does not open. */
  function Reveal(c: Crypto, key: Bytes, v: Vault, id: string): (r: Revealed)
    ensures r.Absent? <==> !Has(v, id)
    ensures Has(v, id) ==>
      (r.Plain? <==> Decrypt(c, key, v.entries[id].encryptedPayload).Some?)
    ensures r.Plain? ==> Some(r.text) == Decrypt(c, key, v.entries[id].encryptedPayload)
  {
    match Find(v, id)
    case None => Absent
    case Some(rec) =>
      match Decrypt(c, key, rec.encryptedPayload)
      case None => Corrupt
      case Some(t) => Plain(t)
  }

  datatype Change = Missing | Changed(vault: Vault, item: SecretRecord) | Crashed(reason: string)

  /** `update`: re-encrypt the value of an existing record and refresh its
      `updatedAt`; every other field, and every other record, stays. */
  function Update(c: Crypto, key: Bytes, v: Vault, id: string, plain: string, now: string, iv: Iv): (r: Change)
    ensures r.Missing? <==> !Has(v, id)
    ensures Has(v, id) ==> (r.Changed? <==> |key| == 32)
    ensures r.Changed? ==>
      var prev := v.entries[id];
      && r.item.id == prev.id && r.item.appId == prev.appId && r.item.kind == prev.kind
      && r.item.labelText == prev.labelText && r.item.metadata == prev.metadata && r.item.createdAt == prev.createdAt
      && r.item.updatedAt == now
      && Some(r.item.encryptedPayload) == Encrypt(c, key, iv, plain)
      && Find(r.vault, id) == Some(r.item)
      && forall k :: k != id ==> Find(r.vault, k) == Find(v, k)
  {
    match Find(v, id)
    case None => Missing
    case Some(current) =>
      match Encrypt(c, key, iv, plain)
      case None => Crashed("RangeError: Invalid key length")
      case Some(payload) =>
        var updated := current.(encryptedPayload := payload, updatedAt := now);
        Changed(Set(v, id, updated), updated)
  }

  /** `delete` of the vault, which is `OrderedMap.Delete`. */
  function DeleteSecret(v: Vault, id: string): (Vault, bool)
  {
    Delete(v, id)
  }

  /** A created secret reveals as the value it was created with. */
  lemma RevealAfterCreate(c: Crypto, key: Bytes, v: Vault, appId: string, kind: Kind, labelText: string,
                          plain: string, metadata: JsValue, now: string, random: Random6, iv: Iv)
    requires Lawful(c) && |key| == 32
    ensures Reveal(c, key, Create(c, key, v, appId, kind, labelText, plain, metadata, now, random, iv).value.0,
                   CreateId("sec", random)) == Plain(plain)
  {
    DecryptEncrypt(c, key, iv, plain);
  }

  /** An updated secret reveals as its new value. */
  lemma RevealAfterUpdate(c: Crypto, key: Bytes, v: Vault, id: string, plain: string, now: string, iv: Iv)
    requires Lawful(c) && |key| == 32 && Has(v, id)
    ensures Reveal(c, key, Update(c, key, v, id, plain, now, iv).vault, id) == Plain(plain)
  {
    DecryptEncrypt(c, key, iv, plain);
  }

  /** A deleted secret no longer reveals. */
  lemma RevealAfterDelete(c: Crypto, key: Bytes, v: Vault, id: string)
    ensures Reveal(c, key, DeleteSecret(v, id).0, id) == Absent
  {
  }

  /** Creating, updating and deleting keep every record under its own id. */
  lemma OperationsKeepKeyedById(c: Crypto, key: Bytes, v: Vault, appId: string, kind: Kind, labelText: string,
                                plain: string, metadata: JsValue, now: string, random: Random6, iv: Iv, id: string)
    requires KeyedById(v)
    ensures Create(c, key, v, appId, kind, labelText, plain, metadata, now, random, iv).Success? ==>
      KeyedById(Create(c, key, v, appId, kind, labelText, plain, metadata, now, random, iv).value.0)
    ensures Update(c, key, v, id, plain, now, iv).Changed? ==> KeyedById(Update(c, key, v, id, plain, now, iv).vault)
    ensures KeyedById(DeleteSecret(v, id).0)
  {
    var created := Create(c, key, v, appId, kind, labelText, plain, metadata, now, random, iv);
    if created.Success? {
      var (v', rec) := created.value;
      forall k | k in v'.entries
        ensures v'.entries[k].id == k
      {
        if k != rec.id {
          assert Find(v', k) == Find(v, k);
        }
      }
    }
    var updated := Update(c, key, v, id, plain, now, iv);
    if updated.Changed? {
      forall k | k in updated.vault.entries
        ensures updated.vault.entries[k].id == k
      {
        if k != id {
          assert Find(updated.vault, k) == Find(v, k);
        }
      }
    }
    var deleted := DeleteSecret(v, id).0;
    forall k | k in deleted.entries
      ensures deleted.entries[k].id == k
    {
      assert Find(deleted, k) == Find(v, k);
    }
  }
}
