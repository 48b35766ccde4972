/** The library primitives the backend calls through Node's `crypto` and
    `Buffer` and the JSON built-ins: base64 and base64url, UTF-8, SHA-256,
    HMAC-SHA256, AES-256-GCM and `JSON.stringify`/`JSON.parse`. They are
    not defined here: they are the fields of a `Crypto` value that every
    operation using them takes as a parameter, and the properties the
    model relies on are stated as laws in `Lawful`. */
module Primitives {
  import opened Wrappers
  import opened Octets
  import opened Js

  /** The URL- and filename-safe alphabet of section 5 of RFC 4648; Node
      writes base64url without padding, so no `=` either. */
  predicate IsBase64UrlChar(c: char) {
    ('A' <= c <= 'Z') || ('a' <= c <= 'z') || ('0' <= c <= '9') || c == '-' || c == '_'
  }

  predicate AllBase64Url(s: string) {
    forall i :: 0 <= i < |s| ==> IsBase64UrlChar(s[i])
  }

  /** What AES-256-GCM encryption yields: the authentication tag and the
      ciphertext. */
  datatype Sealed = Sealed(tag: Bytes, data: Bytes)

  /** A JSON object whose properties are all strings or integers: the shape
      of a token payload. */
  predicate IsFlatObject(v: JsValue) {
    v.Obj? && forall k :: k in v.props ==> v.props[k].Str? || v.props[k].Num?
  }

  datatype Crypto = Crypto(
    base64Encode: Bytes -> string,
    base64Decode: string -> Bytes,
    base64UrlEncode: Bytes -> string,
    base64UrlDecode: string -> Bytes,
    utf8Encode: string -> Bytes,
    utf8Decode: Bytes -> string,
    sha256: Bytes -> Bytes,
    /** HMAC-SHA256 keyed by a secret string over a message string. */
    hmacSha256: (string, string) -> Bytes,
    /** Encryption under (key, iv, plaintext). */
    aesGcmSeal: (Bytes, Bytes, Bytes) -> Sealed,
    /** Decryption under (key, iv, tag, ciphertext); `None` where Node's
        `decipher.final()` throws. */
    aesGcmOpen: (Bytes, Bytes, Bytes, Bytes) -> Option<Bytes>,
    jsonStringify: JsValue -> string,
    /** `None` where `JSON.parse` throws. */
    jsonParse: string -> Option<JsValue>)

  ghost predicate Base64Laws(c: Crypto) {
    && (forall b :: c.base64Decode(c.base64Encode(b)) == b)
    && (forall b :: c.base64UrlDecode(c.base64UrlEncode(b)) == b)
    && (forall b :: AllBase64Url(c.base64UrlEncode(b)))
    && (forall b :: |b| > 0 ==> |c.base64UrlEncode(b)| > 0)
  }

  ghost predicate Utf8Laws(c: Crypto) {
    && (forall s :: c.utf8Decode(c.utf8Encode(s)) == s)
    && (forall s :: |s| > 0 ==> |c.utf8Encode(s)| > 0)
  }

  ghost predicate DigestLaws(c: Crypto) {
    && (forall b :: |c.sha256(b)| == 32)
    && (forall k, m :: |c.hmacSha256(k, m)| == 32)
  }

  /** A 256-bit key and a 96-bit iv give a 128-bit tag, and opening what
      was sealed gives the plaintext back. */
  ghost predicate AeadLaws(c: Crypto) {
    && (forall k, iv, p :: |c.aesGcmSeal(k, iv, p).tag| == 16)
    && (forall k, iv, p :: |k| == 32 && |iv| == 12 ==>
          c.aesGcmOpen(k, iv, c.aesGcmSeal(k, iv, p).tag, c.aesGcmSeal(k, iv, p).data) == Some(p))
  }

  ghost predicate JsonLaws(c: Crypto) {
    forall v :: IsFlatObject(v) ==> c.jsonParse(c.jsonStringify(v)) == Some(v) && |c.jsonStringify(v)| > 0
  }

  ghost predicate Lawful(c: Crypto) {
    Base64Laws(c) && Utf8Laws(c) && DigestLaws(c) && AeadLaws(c) && JsonLaws(c)
  }

  /** base64url never produces a `.`, the token's segment separator. */
  lemma Base64UrlHasNoDot(c: Crypto, b: Bytes)
    requires Base64Laws(c)
    ensures '.' !in c.base64UrlEncode(b)
  {
    var s := c.base64UrlEncode(b);
    assert AllBase64Url(s);
    assert forall i :: 0 <= i < |s| ==> s[i] != '.';
  }
}
