/** The device identity key of the login page: `generateOrGetKeyPair` over the two
    `localStorage` slots "privateKey" and "publicKey", and the key checks `connectWallet`
    makes before it sends a login request.

    A JWK is a JSON object (section 4 of RFC 7517); the private RSA exponent is its member
    "d" (section 6.3.2.1 of RFC 7518). Web Crypto is abstract: whether a private JWK imports
    is a predicate parameter, and key generation is its outcome, a pair or a failure. */
module Login {
  import opened Base

  /** A JSON value as `JSON.parse` produces it (numbers are kept integral). */
  datatype Json = JNull | JBool(b: bool) | JNum(n: int) | JStr(s: string) | JArr(items: seq<Json>)
                | JObj(members: map<string, Json>)

  /** A parsed JWK: the members of the JSON object. */
  type Jwk = map<string, Json>

  /** What a slot holds: the serialisation of a JWK written by this page, or any other text,
      which `JSON.parse` rejects or which does not parse to an object. Reading a record back
      yields the JWK that was written. */
  datatype Stored = Record(jwk: Jwk) | Unparsable(text: string)

  /** The outcome of `generateKey` followed by the two `exportKey("jwk", ...)` calls. */
  datatype ExportedPair = ExportedPair(publicJwk: Jwk, privateJwk: Jwk)

  /** The two slots. */
  datatype Slots = Slots(privateKey: Option<Stored>, publicKey: Option<Stored>)

  /** What `generateOrGetKeyPair` returns and the slots it leaves behind. */
  datatype KeyPairResult = KeyPairResult(returned: Option<Jwk>, slots: Slots)

  /** What `connectWallet` does once the key is settled: send the login request with a
      public key, or show an error and send nothing. */
  datatype LoginOutcome = LoginRequest(publicKey: Jwk) | LoginBlocked(error: string)

  const GENERATION_FAILED := "Failed to generate encryption keys. Please refresh and try again."
  const PRIVATE_FIELD_DETECTED := "Invalid public key detected. Clearing keys."

  /** JavaScript truthiness of a JSON value. */
  predicate Truthy(v: Json)
  {
    match v
    case JNull => false
    case JBool(b) => b
    case JNum(n) => n != 0
    case JStr(s) => s != ""
    case _ => true
  }

  /** `jwk.d` is truthy: the record carries a private exponent. */
  predicate HasPrivateField(jwk: Jwk)
  {
    "d" in jwk && Truthy(jwk["d"])
  }

  /** `localStorage.getItem(slot)` is truthy: present and not the empty string. */
  predicate Present(slot: Option<Stored>)
  {
    slot.Some? && (slot.value.Record? || slot.value.text != "")
  }

  /** The members the patch writes: "alg" (section 4.4 of RFC 7517), "use" (section 4.2),
      "key_ops" (section 4.3) and "ext". */
  predicate IsMetadataMember(name: string)
  {
    name == "alg" || name == "use" || name == "key_ops" || name == "ext"
  }

  /** The patched public key marks RSA-OAEP-256, encryption use, encrypt-only, extractable. */
  predicate HasEncryptionMetadata(jwk: Jwk)
  {
    && "alg" in jwk && jwk["alg"] == JStr("RSA-OAEP-256")
    && "use" in jwk && jwk["use"] == JStr("enc")
    && "key_ops" in jwk && jwk["key_ops"] == JArr([JStr("encrypt")])
    && "ext" in jwk && jwk["ext"] == JBool(true)
  }

  /** The four assignments that patch a public JWK in place. */
  function PatchMetadata(jwk: Jwk): Jwk
  {
    jwk["alg" := JStr("RSA-OAEP-256")]["use" := JStr("enc")]
       ["key_ops" := JArr([JStr("encrypt")])]["ext" := JBool(true)]
  }

  /** The patch sets the metadata, keeps every other member as it was (the private
      exponent included), and applying it twice is applying it once. */
  lemma PatchProperties(jwk: Jwk)
    ensures HasEncryptionMetadata(PatchMetadata(jwk))
    ensures forall name :: !IsMetadataMember(name) ==>
      (name in PatchMetadata(jwk) <==> name in jwk) &&
      (name in jwk ==> PatchMetadata(jwk)[name] == jwk[name])
    ensures HasPrivateField(PatchMetadata(jwk)) <==> HasPrivateField(jwk)
    ensures PatchMetadata(PatchMetadata(jwk)) == PatchMetadata(jwk)
  {
  }

  /** The stored pair may be reused: both slots present, both parse to objects, the public
      record has no private exponent and the private record imports. */
  predicate Reusable(slots: Slots, importable: Jwk -> bool)
  {
    && Present(slots.privateKey) && Present(slots.publicKey)
    && slots.privateKey.value.Record? && slots.publicKey.value.Record?
    && !HasPrivateField(slots.publicKey.value.jwk)
    && importable(slots.privateKey.value.jwk)
  }

  /** The specification of `generateOrGetKeyPair`. */
  function GenerateOrGet(slots: Slots, importable: Jwk -> bool, generated: Option<ExportedPair>): KeyPairResult
  {
    if Reusable(slots, importable) then
      var patched := PatchMetadata(slots.publicKey.value.jwk);
      KeyPairResult(Some(patched), slots.(publicKey := Some(Record(patched))))
    else
      // a pair that was present but failed validation is wiped before generating
      var cleared := if Present(slots.privateKey) && Present(slots.publicKey)
                     then Slots(None, None) else slots;
      match generated
      case None => KeyPairResult(None, cleared)
      case Some(pair) =>
        var patched := PatchMetadata(pair.publicJwk);
        KeyPairResult(Some(patched), Slots(Some(Record(pair.privateJwk)), Some(Record(patched))))
  }

  /** Reuse: the stored pair is reused exactly when it validates; then the patched stored
      public key is returned, the private slot is untouched and only the public slot is
      rewritten, with the returned key. */
  lemma ReuseWhenValid(slots: Slots, importable: Jwk -> bool, generated: Option<ExportedPair>)
    requires Reusable(slots, importable)
    ensures var r := GenerateOrGet(slots, importable, generated);
      && r.returned == Some(PatchMetadata(slots.publicKey.value.jwk))
      && r.slots.privateKey == slots.privateKey
      && r.slots.publicKey == Some(Record(r.returned.value))
      && !HasPrivateField(r.returned.value)
  {
    PatchProperties(slots.publicKey.value.jwk);
  }

  /** A present pair that fails validation is removed from both slots; generation then
      either rewrites both or, when it fails, leaves both empty and returns nothing. */
  lemma InvalidPairIsWiped(slots: Slots, importable: Jwk -> bool, generated: Option<ExportedPair>)
    requires Present(slots.privateKey) && Present(slots.publicKey)
    requires !Reusable(slots, importable)
    ensures generated.None? ==> GenerateOrGet(slots, importable, generated) == KeyPairResult(None, Slots(None, None))
    ensures generated.Some? ==>
      GenerateOrGet(slots, importable, generated).slots.privateKey == Some(Record(generated.value.privateJwk))
  {
  }

  /** Generation: when the stored pair is not reusable, a generated pair is stored whole and
      the patched PUBLIC key is returned (never the private record); a failed generation
      returns nothing. Whatever is returned carries the encryption metadata and is what
      the public slot now holds. */
  lemma GenerationOutcome(slots: Slots, importable: Jwk -> bool, generated: Option<ExportedPair>)
    requires !Reusable(slots, importable)
    ensures var r := GenerateOrGet(slots, importable, generated);
      && (generated.None? ==> r.returned.None?)
      && (generated.Some? ==>
            && r.returned == Some(PatchMetadata(generated.value.publicJwk))
            && r.slots == Slots(Some(Record(generated.value.privateJwk)), Some(Record(r.returned.value))))
  {
  }

  /** Every key returned carries the encryption metadata and is the key the public slot
      holds afterwards. */
  lemma ReturnedKeyIsPatchedAndStored(slots: Slots, importable: Jwk -> bool, generated: Option<ExportedPair>)
    requires GenerateOrGet(slots, importable, generated).returned.Some?
    ensures var r := GenerateOrGet(slots, importable, generated);
      HasEncryptionMetadata(r.returned.value) && r.slots.publicKey == Some(Record(r.returned.value))
  {
    if Reusable(slots, importable) {
      PatchProperties(slots.publicKey.value.jwk);
    } else {
      PatchProperties(generated.value.publicJwk);
    }
  }

  /** The specification of the key part of `connectWallet`. */
  function Connect(slots: Slots, importable: Jwk -> bool, generated: Option<ExportedPair>): (LoginOutcome, Slots)
  {
    var r := GenerateOrGet(slots, importable, generated);
    match r.returned
    case None => (LoginBlocked(GENERATION_FAILED), r.slots)
    case Some(key) =>
      if HasPrivateField(key) then (LoginBlocked(PRIVATE_FIELD_DETECTED), Slots(None, None))
      else (LoginRequest(key), r.slots)
  }

  /** A login request never carries a private exponent, and when one is sent the public slot
      holds exactly the key sent; a key with a private exponent blocks the login and empties
      both slots. */
  lemma LoginNeverLeaksPrivateField(slots: Slots, importable: Jwk -> bool, generated: Option<ExportedPair>)
    ensures var (outcome, after) := Connect(slots, importable, generated);
      && (outcome.LoginRequest? ==> !HasPrivateField(outcome.publicKey) &&
                                    after.publicKey == Some(Record(outcome.publicKey)))
      && (outcome == LoginBlocked(PRIVATE_FIELD_DETECTED) ==> after == Slots(None, None))
      && (after.publicKey.Some? && after.publicKey.value.Record? && outcome.LoginRequest? ==>
            !HasPrivateField(after.publicKey.value.jwk))
  {
    var r := GenerateOrGet(slots, importable, generated);
    if r.returned.Some? {
      ReturnedKeyIsPatchedAndStored(slots, importable, generated);
    }
  }

  /** A stored pair that validates always leads to a login request. */
  lemma ValidStoredPairLogsIn(slots: Slots, importable: Jwk -> bool, generated: Option<ExportedPair>)
    requires Reusable(slots, importable)
    ensures Connect(slots, importable, generated).0 == LoginRequest(PatchMetadata(slots.publicKey.value.jwk))
  {
    ReuseWhenValid(slots, importable, generated);
  }

  /** Generation that fails blocks the login with its own message. */
  lemma GenerationFailureBlocksLogin(slots: Slots, importable: Jwk -> bool)
    requires !Reusable(slots, importable)
    ensures Connect(slots, importable, None).0 == LoginBlocked(GENERATION_FAILED)
  {
  }

  /** The two `localStorage` slots of the device. */
  class IdentityKeyStore {
    var privateKey: Option<Stored>
    var publicKey: Option<Stored>

    function Snapshot(): Slots
      reads this
    {
      Slots(privateKey, publicKey)
    }

    constructor(privateKey: Option<Stored>, publicKey: Option<Stored>)
      ensures Snapshot() == Slots(privateKey, publicKey)
    {
      this.privateKey := privateKey;
      this.publicKey := publicKey;
    }

    /** `generateOrGetKeyPair`. */
    method GenerateOrGetKeyPair(importable: Jwk -> bool, generated: Option<ExportedPair>)
      returns (result: Option<Jwk>)
      modifies this
      ensures KeyPairResult(result, Snapshot()) == GenerateOrGet(old(Snapshot()), importable, generated)
    {
      if Present(privateKey) && Present(publicKey) {
        // the try block: parse both, reject a private exponent, import, patch, store
        if privateKey.value.Record? && publicKey.value.Record? {
          var privateJwk := privateKey.value.jwk;
          var publicJwk := publicKey.value.jwk;
          if !HasPrivateField(publicJwk) && importable(privateJwk) {
            publicJwk := publicJwk["alg" := JStr("RSA-OAEP-256")];
            publicJwk := publicJwk["use" := JStr("enc")];
            publicJwk := publicJwk["key_ops" := JArr([JStr("encrypt")])];
            publicJwk := publicJwk["ext" := JBool(true)];
            publicKey := Some(Record(publicJwk));
            return Some(publicJwk);
          }
        }
        // the catch block
        privateKey := None;
        publicKey := None;
      }
      if generated.None? {
        return None;
      }
      var publicJwk := generated.value.publicJwk;
      publicJwk := publicJwk["alg" := JStr("RSA-OAEP-256")];
      publicJwk := publicJwk["use" := JStr("enc")];
      publicJwk := publicJwk["key_ops" := JArr([JStr("encrypt")])];
      publicJwk := publicJwk["ext" := JBool(true)];
      privateKey := Some(Record(generated.value.privateJwk));
      publicKey := Some(Record(publicJwk));
      result := Some(publicJwk);
    }

    /** The key checks of `connectWallet` (after the wallet signature). */
    method ConnectWallet(importable: Jwk -> bool, generated: Option<ExportedPair>)
      returns (outcome: LoginOutcome)
      modifies this
      ensures (outcome, Snapshot()) == Connect(old(Snapshot()), importable, generated)
    {
      var key := GenerateOrGetKeyPair(importable, generated);
      if key.None? {
        return LoginBlocked(GENERATION_FAILED);
      }
      if HasPrivateField(key.value) {
        privateKey := None;
        publicKey := None;
        return LoginBlocked(PRIVATE_FIELD_DETECTED);
      }
      outcome := LoginRequest(key.value);
    }
  }
}
