/** The three modes of the asymmetric-key dialog of the JWT editor: one per
    asymmetric key family (EC, RSA, OKP). Each mode fixes its key family, the
    parameters offered for generating a new key (curves or RSA modulus sizes) and
    the parameter preselected by default, and routes PEM import and key generation
    to the converter or generator of its own family. */
module AsymmetricKeyDialogMode {
  import opened Jwk

  /** A generation parameter as the dialog offers it: a curve, or an RSA size in bits. */
  datatype KeyOption = CurveOption(curve: Curve) | SizeOption(bits: int)

  datatype Mode = EC | RSA | OKP {

    /** The key family the mode was constructed with. */
    function KeyType(): (kty: Jwk.KeyType) {
      match this
      case EC => Jwk.EC
      case RSA => Jwk.RSA
      case OKP => Jwk.OKP
    }

    /** The parameter preselected when no key is being edited. */
    function DefaultOption(): (o: KeyOption) {
      match this
      case EC => CurveOption(P_256)
      case RSA => SizeOption(2048)
      case OKP => CurveOption(X25519)
    }

    /** The parameters offered for generating a key, in the order offered. */
    function KeyOptions(): (opts: seq<KeyOption>) {
      match this
      case EC => [CurveOption(P_256), CurveOption(SECP256K1), CurveOption(P_384), CurveOption(P_521)]
      case RSA => [SizeOption(512), SizeOption(1024), SizeOption(2048), SizeOption(3072), SizeOption(4096)]
      case OKP => [CurveOption(X25519), CurveOption(Ed25519), CurveOption(X448), CurveOption(Ed448)]
    }

    /** The kind of parameter the mode's generator takes: the cast of the
        parameter succeeds exactly for these. */
    predicate Accepts(o: KeyOption) {
      if RSA? then o.SizeOption? else o.CurveOption?
    }

    /** Routes PEM import to the converter of the mode's own family. */
    function PemToJwk(pem: string, keyId: string): (call: PemConversion)
      ensures call.Family() == KeyType()
      ensures call.pem == pem && call.keyId == keyId
    {
      match this
      case EC => PemToECKey(pem, keyId)
      case RSA => PemToRSAKey(pem, keyId)
      case OKP => PemToOctetKeyPair(pem, keyId)
    }

    /** The parameter to preselect: the default when there is no key, otherwise the
        curve (EC, OKP) or the size (RSA) of the key. The EC and OKP branches cast
        the key to their own family and fail on any other key; the RSA branch
        reads the size of any key. */
    function SelectedKeyOption(key: Option<Key>): (r: Result<KeyOption>)
      ensures key.None? ==> r == Ok(DefaultOption())
      ensures key.Some? ==> (r.Err? <==> !RSA? && key.value.KeyType() != KeyType())
      ensures key.Some? && RSA? ==> r == Ok(SizeOption(key.value.Size()))
      ensures key.Some? && !RSA? && r.Ok? ==> r.value == CurveOption(key.value.crv)
      ensures r.Ok? ==> Accepts(r.value)
    {
      if key.None? then
        Ok(DefaultOption())
      else
        match this
        case EC => if key.value.ECKey? then Ok(CurveOption(key.value.crv)) else Err(ClassCastException)
        case RSA => Ok(SizeOption(key.value.Size()))
        case OKP => if key.value.OctetKeyPair? then Ok(CurveOption(key.value.crv)) else Err(ClassCastException)
    }

    /** Routes key generation to the generator of the mode's own family, passing the
        key id and the parameter through; RSA generation allows weak sizes. */
    function GenerateNewKey(keyId: string, keyParameter: KeyOption): (r: Result<KeyGeneration>)
      ensures r.Ok? <==> Accepts(keyParameter)
      ensures r.Ok? ==> r.value.Family() == KeyType() && r.value.keyId == keyId
      ensures r.Ok? && r.value.GenerateRSA? ==> r.value.allowWeakKeys && keyParameter == SizeOption(r.value.size)
      ensures r.Ok? && !r.value.GenerateRSA? ==> keyParameter == CurveOption(r.value.curve)
    {
      match this
      case EC =>
        if keyParameter.CurveOption? then Ok(GenerateEC(keyParameter.curve, keyId)) else Err(ClassCastException)
      case RSA =>
        if keyParameter.SizeOption? then Ok(GenerateRSA(keyParameter.bits, true, keyId)) else Err(ClassCastException)
      case OKP =>
        if keyParameter.CurveOption? then Ok(GenerateOKP(keyParameter.curve, keyId)) else Err(ClassCastException)
    }
  }

  /** Reference description of the offered parameters, as sets. */
  predicate Allowed(m: Mode, o: KeyOption) {
    match m
    case EC => o.CurveOption? && o.curve.name in {"P-256", "secp256k1", "P-384", "P-521"}
    case RSA => o.SizeOption? && o.bits in {512, 1024, 2048, 3072, 4096}
    case OKP => o.CurveOption? && o.curve.name in {"X25519", "Ed25519", "X448", "Ed448"}
  }

  lemma KeyTypeOfMode(m: Mode)
    ensures m.EC? <==> m.KeyType() == Jwk.EC
    ensures m.RSA? <==> m.KeyType() == Jwk.RSA
    ensures m.OKP? <==> m.KeyType() == Jwk.OKP
    ensures m.KeyType() != Oct
  {
  }

  lemma DefaultIsOffered(m: Mode)
    ensures m.DefaultOption() in m.KeyOptions()
  {
  }

  /** RSA offers sizes below 2048 bits, but preselects the smallest size that is not. */
  lemma RsaDefaultIsSmallestStrongSize()
    ensures exists o: KeyOption :: o in Mode.RSA.KeyOptions() && o.bits < 2048
    ensures Mode.RSA.DefaultOption().SizeOption? && Mode.RSA.DefaultOption().bits >= 2048
    ensures forall o: KeyOption :: o in Mode.RSA.KeyOptions() && o.bits >= 2048 ==> Mode.RSA.DefaultOption().bits <= o.bits
  {
    assert SizeOption(512) in Mode.RSA.KeyOptions();
  }

  lemma KeyOptionsMatchReference(m: Mode, o: KeyOption)
    ensures o in m.KeyOptions() <==> Allowed(m, o)
  {
  }

  /** No element of `s` reappears later in `s`. */
  predicate NoDuplicates<T(==)>(s: seq<T>) {
    |s| == 0 || (s[0] !in s[1..] && NoDuplicates(s[1..]))
  }

  lemma {:induction false} NoDuplicatesPairwise<T>(s: seq<T>)
    ensures NoDuplicates(s) <==> forall i, j :: 0 <= i < j < |s| ==> s[i] != s[j]
  {
    if |s| > 0 {
      NoDuplicatesPairwise(s[1..]);
      if NoDuplicates(s) {
        forall i, j | 0 <= i < j < |s| ensures s[i] != s[j] {
          assert s[j] == s[1..][j - 1];
          if i > 0 { assert s[i] == s[1..][i - 1]; }
        }
      }
      if forall i, j :: 0 <= i < j < |s| ==> s[i] != s[j] {
        forall k | 0 <= k < |s[1..]| ensures s[1..][k] != s[0] {
          assert s[1..][k] == s[k + 1];
        }
        forall i, j | 0 <= i < j < |s[1..]| ensures s[1..][i] != s[1..][j] {
          assert s[1..][i] == s[i + 1] && s[1..][j] == s[j + 1];
        }
      }
    }
  }

  lemma KeyOptionsHaveNoDuplicates(m: Mode)
    ensures NoDuplicates(m.KeyOptions())
    ensures forall i, j :: 0 <= i < j < |m.KeyOptions()| ==> m.KeyOptions()[i] != m.KeyOptions()[j]
  {
    var s := m.KeyOptions();
    assert NoDuplicates(s[4..]);
    assert NoDuplicates(s[3..]);
    assert NoDuplicates(s[2..]);
    assert NoDuplicates(s[1..]);
    NoDuplicatesPairwise(s);
  }

  lemma OptionDeterminesMode(m1: Mode, m2: Mode, o: KeyOption)
    requires o in m1.KeyOptions() && o in m2.KeyOptions()
    ensures m1 == m2
  {
  }

  lemma GenerateThenSelect(m: Mode, keyId: string, o: KeyOption, key: Key)
    requires m.GenerateNewKey(keyId, o).Ok? && Yields(m.GenerateNewKey(keyId, o).value, key)
    ensures m.SelectedKeyOption(Some(key)) == Ok(o)
  {
  }

  /** Two keys of one family on the same curve, or of the same size for RSA. */
  predicate SameParameters(a: Key, b: Key) {
    a.KeyType() == b.KeyType()
    && (a.ECKey? || a.OctetKeyPair? ==> a.crv == b.crv)
    && (a.RSAKey? ==> a.bits == b.bits)
  }

  lemma SelectThenGenerate(m: Mode, keyId: string, key: Key)
    requires key.KeyType() == m.KeyType()
    ensures m.SelectedKeyOption(Some(key)).Ok?
    ensures m.GenerateNewKey(keyId, m.SelectedKeyOption(Some(key)).value).Ok?
    ensures forall made :: Yields(m.GenerateNewKey(keyId, m.SelectedKeyOption(Some(key)).value).value, made)
              ==> SameParameters(made, key) && made.kid == keyId
  {
  }

  lemma ImportedKeyIsSelectable(m: Mode, pem: string, keyId: string, key: Key)
    requires Converts(m.PemToJwk(pem, keyId), key)
    ensures m.SelectedKeyOption(Some(key)).Ok?
    ensures key.kid == keyId
  {
  }

  lemma OfferedOptionsAreGenerable(m: Mode, keyId: string, o: KeyOption)
    requires o in m.KeyOptions()
    ensures m.GenerateNewKey(keyId, o).Ok?
    ensures exists key :: Yields(m.GenerateNewKey(keyId, o).value, key)
  {
    var call := m.GenerateNewKey(keyId, o).value;
    match call
    case GenerateEC(c, id) => assert Yields(call, ECKey(c, id, 0));
    case GenerateRSA(n, _, id) => assert Yields(call, RSAKey(id, n as nat));
    case GenerateOKP(c, id) => assert Yields(call, OctetKeyPair(c, id, 0));
  }

  /** Without the weak-size allowance the RSA generator refuses the offered sizes
      512 and 1024, so setting it is what makes them usable. */
  lemma WeakSizesNeedAllowance(keyId: string, o: KeyOption, key: Key)
    requires o in Mode.RSA.KeyOptions() && o.bits < 2048
    ensures !Yields(GenerateRSA(o.bits, false, keyId), key)
    ensures Mode.RSA.GenerateNewKey(keyId, o) == Ok(GenerateRSA(o.bits, true, keyId))
  {
  }
}
