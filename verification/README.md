# Asymmetric key dialog modes of the JWT editor

The JWT editor's key manager has one dialog for creating or importing an
asymmetric key. The dialog works in one of three modes, one per asymmetric JSON
Web Key family: EC, RSA and OKP. These are the `kty` values of section 6.1 of
RFC 7518 and section 2 of RFC 8037. Each mode fixes three things:

- its key family;
- the generation parameters it offers: curves for EC and OKP, modulus sizes in
  bits for RSA;
- the parameter it preselects by default.

On top of this table, each mode does three things:

- it chooses the parameter to preselect for a key being edited;
- it routes PEM import to the converter of its own family;
- it routes key generation to the generator of its own family.

The model is pure, like the source enum. All fields are fixed at construction,
and each operation is a single `switch` over the mode.

- `jwk.dfy` (module `Jwk`) holds what the dialog relies on from code outside
  the modelled file, reduced to values. These are the key families, named curves
  and an abstract key record (family, curve, key id, reported bit size).
- The PEM converters (`PEMUtils`) and `OKPGenerator` are the editor's own
  helpers. `ECKeyGenerator`, `RSAKeyGenerator` and the key and curve types come
  from the Nimbus JOSE+JWT library.
- A call to any of these is represented by a descriptor. `PemConversion` names
  the PEM converter and its arguments, and `KeyGeneration` names the generator
  and its arguments.
- The predicates `Converts` and `Yields` are assumptions about what these
  routines return. Lemmas take them as hypotheses; nothing checks them against
  the routines' code.
- `asymmetric_key_dialog_mode.dfy` (module `AsymmetricKeyDialogMode`) holds the
  mode table, the dispatch functions and the lemmas about them.

Java casts that fail raise `ClassCastException`. The model returns this as
`Err(ClassCastException)`; it is not a precondition. This applies to the casts
of the key in `selectedKeyOption` and of the parameter in `generateNewKey`.

The RSA branch of `selectedKeyOption` casts nothing. It reads `size()`, which
every key has. So in RSA mode any key gives a size. Only the EC and OKP
branches fail on a key of another family, and the model follows the code here.

The curve the code calls `secp256k1` (`Curve.SECP256K1`) is the curve older
texts name P-256K. Curves are compared by name, as the Nimbus library's curve
equality does.

## Model

| member | source | states |
|---|---|---|
| AsymmetricKeyDialogMode.KeyTypeOfMode | src/main/java/com/blackberry/jwteditor/view/dialog/keys/AsymmetricKeyDialogMode.java:74-84 | `keyType()` returns the family each mode was built with: EC→EC, RSA→RSA, OKP→OKP. No two modes share a family, and none is the symmetric `oct` family. Modes are immutable values, so this never changes. |
| AsymmetricKeyDialogMode.DefaultIsOffered | src/main/java/com/blackberry/jwteditor/view/dialog/keys/AsymmetricKeyDialogMode.java:36-66 | In every mode the default option is one of that mode's key options. |
| AsymmetricKeyDialogMode.RsaDefaultIsSmallestStrongSize | src/main/java/com/blackberry/jwteditor/view/dialog/keys/AsymmetricKeyDialogMode.java:46-56 | RSA offers sizes below 2048 bits. Its default is a size of at least 2048 bits, and no smaller offered size is 2048 bits or more. |
| AsymmetricKeyDialogMode.KeyOptionsMatchReference | src/main/java/com/blackberry/jwteditor/view/dialog/keys/AsymmetricKeyDialogMode.java:36-66 | An option is offered by a mode exactly when it is in that mode's reference set. EC: P-256, secp256k1, P-384, P-521. RSA: 512, 1024, 2048, 3072, 4096. OKP: X25519, Ed25519, X448, Ed448. |
| AsymmetricKeyDialogMode.KeyOptionsHaveNoDuplicates | src/main/java/com/blackberry/jwteditor/view/dialog/keys/AsymmetricKeyDialogMode.java:36-66 | No mode's option list holds the same option twice, stated both recursively and pairwise. |
| AsymmetricKeyDialogMode.OptionDeterminesMode | src/main/java/com/blackberry/jwteditor/view/dialog/keys/AsymmetricKeyDialogMode.java:36-66 | The three option lists are disjoint: an offered option belongs to exactly one mode. |
| AsymmetricKeyDialogMode.Mode.PemToJwk | src/main/java/com/blackberry/jwteditor/view/dialog/keys/AsymmetricKeyDialogMode.java:86-92 | PEM import goes to the converter of the mode's own family (EC→EC, RSA→RSA, OKP→octet key pair). The PEM text and key id are passed through unchanged. |
| AsymmetricKeyDialogMode.Mode.SelectedKeyOption | src/main/java/com/blackberry/jwteditor/view/dialog/keys/AsymmetricKeyDialogMode.java:98-108 | With no key, the result is the default option. With a key, RSA returns the key's size, whatever its family. EC and OKP return the key's curve, and fail (class cast) exactly when the key is of another family. Any result is a parameter of the kind the mode's generator takes. |
| AsymmetricKeyDialogMode.Mode.GenerateNewKey | src/main/java/com/blackberry/jwteditor/view/dialog/keys/AsymmetricKeyDialogMode.java:110-122 | Generation succeeds exactly when the parameter has the kind the mode's cast accepts: a curve for EC and OKP, a size for RSA. It goes to the generator of the mode's family with the key id unchanged and the parameter unchanged. RSA requests always set the weak-size allowance, so 512 and 1024 are requested as they are. |
| AsymmetricKeyDialogMode.GenerateThenSelect | src/main/java/com/blackberry/jwteditor/view/dialog/keys/AsymmetricKeyDialogMode.java:98-121 | Take any key that a generator returns for a parameter. Opening that key in the same mode preselects that same parameter. |
| AsymmetricKeyDialogMode.SelectThenGenerate | src/main/java/com/blackberry/jwteditor/view/dialog/keys/AsymmetricKeyDialogMode.java:98-121 | For a key of the mode's family, preselection succeeds and the preselected parameter is accepted by the generator. Any key generated from it has the same family and curve or size as the original, and the new key id. |
| AsymmetricKeyDialogMode.ImportedKeyIsSelectable | src/main/java/com/blackberry/jwteditor/view/dialog/keys/AsymmetricKeyDialogMode.java:86-108 | A key imported from PEM in a mode can be opened in that mode without a class-cast failure, and it carries the key id given at import. |
| AsymmetricKeyDialogMode.OfferedOptionsAreGenerable | src/main/java/com/blackberry/jwteditor/view/dialog/keys/AsymmetricKeyDialogMode.java:36-66 | Every option a mode offers is accepted by that mode's `generateNewKey`, and the resulting request can be met by some key under `Yields`. For RSA this is the real content: 512 and 1024 are satisfiable because the weak-size allowance is set. For EC and OKP it holds of every curve, since `Yields` accepts a key on any requested curve. |
| AsymmetricKeyDialogMode.WeakSizesNeedAllowance | src/main/java/com/blackberry/jwteditor/view/dialog/keys/AsymmetricKeyDialogMode.java:119 | The offered RSA sizes below 2048 bits are requested with the weak-size allowance set. Without it, the generator returns no key for them. |

## Left out

- The code the modes call is not part of this model. That is the editor's own helpers `PEMUtils.pemToECKey`, `pemToRSAKey`, `pemToOctetKeyPair` and `OKPGenerator`, and the Nimbus JOSE+JWT generators `ECKeyGenerator` and `RSAKeyGenerator`. Each call is a descriptor naming the routine and its arguments. What the routines return is only assumed, through `Converts` and `Yields`. Their failures (`PemException`, `JOSEException`) are not modelled.
- The random key material of a generated key, and the key's bit size as the Nimbus `JWK.size()` computes it, are not modelled. The bit size is a field of the abstract key.
- The security-provider lookup and the key store built from it (AsymmetricKeyDialogMode.java:112-115) are not modelled. They are platform provider selection, and their `KeyStoreException` is left out too.
- A null `keyParameter` in `generateNewKey` is not modelled. The dialog passes an option from its list; the model's parameter is always a curve or a size.
- `keyOptions()` returns the enum's own mutable array, so a caller could change the shared array. The model returns an immutable sequence.
- `resourceTitleId` and `resourceLabelId` are not modelled. They are localisation keys for presentation strings.
- `EditorView.java` and `BurpConfigDialog.java` are not modelled. They are Swing widget wiring and configuration-copying glue with no key or token semantics.
