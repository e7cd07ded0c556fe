/** What the key dialog relies on from code outside the modelled file, reduced to
    values: key families (the `kty` values of section 6.1 of RFC 7518 and section 2
    of RFC 8037), named curves, an abstract key record, and the calls that convert
    PEM text or generate keys. The PEM converters (`PEMUtils`) and the OKP generator
    (`OKPGenerator`) are the editor's own helpers; the EC and RSA generators
    (`ECKeyGenerator`, `RSAKeyGenerator`) and the key and curve types come from the
    Nimbus JOSE+JWT library. None of their code is part of this model: a call is
    represented by a descriptor naming the routine and its arguments, and the
    predicates `Converts` and `Yields` are assumptions about what the routine
    returns, which lemmas take as hypotheses. */
module Jwk {

  datatype Option<+T> = None | Some(value: T)

  /** The exceptions a dialog-mode operation can raise by itself. */
  datatype Thrown = ClassCastException

  datatype Result<+T> = Ok(value: T) | Err(error: Thrown)

  /** Key family of a JSON Web Key; the constructors are the registered `kty`
      values ("EC", "RSA", "oct", "OKP"). */
  datatype KeyType = EC | RSA | Oct | OKP

  /** A named curve; two curves are equal exactly when their names are. */
  datatype Curve = Curve(name: string)

  const P_256 := Curve("P-256")
  const SECP256K1 := Curve("secp256k1")
  const P_384 := Curve("P-384")
  const P_521 := Curve("P-521")
  const X25519 := Curve("X25519")
  const Ed25519 := Curve("Ed25519")
  const X448 := Curve("X448")
  const Ed448 := Curve("Ed448")

  /** A JSON Web Key, reduced to its family, its curve where it has one, its key id
      and the bit size Nimbus `JWK.size()` reports for it. */
  datatype Key =
    | ECKey(crv: Curve, kid: string, bits: nat)
    | RSAKey(kid: string, bits: nat)
    | OctetKeyPair(crv: Curve, kid: string, bits: nat)
    | OctetSequenceKey(kid: string, bits: nat)
  {
    function KeyType(): (kty: KeyType) {
      match this
      case ECKey(_, _, _) => EC
      case RSAKey(_, _) => RSA
      case OctetKeyPair(_, _, _) => OKP
      case OctetSequenceKey(_, _) => Oct
    }

    /** The key's `size()` in bits, defined on every key. */
    function Size(): (n: nat) {
      bits
    }
  }

  /** A call to one of the PEM-to-JWK converters. */
  datatype PemConversion =
    | PemToECKey(pem: string, keyId: string)
    | PemToRSAKey(pem: string, keyId: string)
    | PemToOctetKeyPair(pem: string, keyId: string)
  {
    /** The key family the converter produces. */
    function Family(): (kty: KeyType) {
      match this
      case PemToECKey(_, _) => EC
      case PemToRSAKey(_, _) => RSA
      case PemToOctetKeyPair(_, _) => OKP
    }
  }

  /** Assumed of a successful conversion: it returns a key of the converter's family
      carrying the requested key id. */
  predicate Converts(call: PemConversion, key: Key) {
    key.KeyType() == call.Family() && key.kid == call.keyId
  }

  /** A call to one of the key generators. */
  datatype KeyGeneration =
    | GenerateEC(curve: Curve, keyId: string)
    | GenerateRSA(size: int, allowWeakKeys: bool, keyId: string)
    | GenerateOKP(curve: Curve, keyId: string)
  {
    /** The key family the generator produces. */
    function Family(): (kty: KeyType) {
      match this
      case GenerateEC(_, _) => EC
      case GenerateRSA(_, _, _) => RSA
      case GenerateOKP(_, _) => OKP
    }
  }

  /** Assumed of a successful generation: it returns a key of the generator's family, on the
      requested curve or of the requested size, carrying the requested key id. The
      RSA generator refuses sizes below 2048 bits unless weak keys are allowed. */
  predicate Yields(call: KeyGeneration, key: Key) {
    match call
    case GenerateEC(c, id) => key.ECKey? && key.crv == c && key.kid == id
    case GenerateRSA(n, weak, id) => key.RSAKey? && key.bits == n && key.kid == id && (weak || n >= 2048)
    case GenerateOKP(c, id) => key.OctetKeyPair? && key.crv == c && key.kid == id
  }
}
