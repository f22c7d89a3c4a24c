/** The foreign libraries the hot executor calls: Ed25519, base64 and base58.
    They are values of the model, constrained only by the laws it needs. */
module Primitives {
  import opened Wrappers

  newtype byte = x: int | 0 <= x < 256
  type Bytes = seq<byte>

  datatype Library = Library(
    pubKey: Bytes -> Bytes,
    sign: (Bytes, Bytes) -> Bytes,
    verify: (Bytes, Bytes, Bytes) -> bool,
    b64Encode: Bytes -> string,
    b64Decode: string -> Option<Bytes>,
    b58Encode: Bytes -> string,
    trimmedB58Decode: string -> Option<Bytes>
  )

  /** Sections 5.1.5 to 5.1.7 of RFC 8032: a 32-byte seed has a 32-byte public key, signing is a
      deterministic function giving 64 bytes, and every signature verifies under the seed's key. */
  ghost predicate SignsAndVerifies(lib: Library) {
    forall seed: Bytes, msg: Bytes {:trigger lib.sign(seed, msg)} | |seed| == 32 ::
      && |lib.pubKey(seed)| == 32
      && |lib.sign(seed, msg)| == 64
      && lib.verify(lib.pubKey(seed), msg, lib.sign(seed, msg))
  }

  /** Section 4 of RFC 4648: decoding undoes encoding. */
  ghost predicate Base64RoundTrips(lib: Library) {
    forall bytes: Bytes {:trigger lib.b64Encode(bytes)} :: lib.b64Decode(lib.b64Encode(bytes)) == Some(bytes)
  }

  ghost predicate Lawful(lib: Library) {
    SignsAndVerifies(lib) && Base64RoundTrips(lib)
  }

  function ToText(bytes: Bytes): string {
    seq(|bytes|, i requires 0 <= i < |bytes| => bytes[i] as char)
  }

  function FromText(text: string): Bytes {
    seq(|text|, i requires 0 <= i < |text| => ((text[i] as int) % 256) as byte)
  }

  /** The laws are satisfiable: a toy library meets them. */
  function ToyLibrary(): (lib: Library)
    ensures Lawful(lib)
  {
    var zeros: Bytes := seq(64, _ => 0);
    var lib := Library(
      _ => zeros[..32], (_, _) => zeros, (_, _, _) => true,
      ToText, text => Some(FromText(text)), ToText, text => Some(FromText(text)));
    assert forall bytes: Bytes :: FromText(ToText(bytes)) == bytes;
    lib
  }

  type LawfulLibrary = lib: Library | Lawful(lib) ghost witness ToyLibrary()
}
