/** The key-identifier translator: every logical key of the LoRaWAN stack is
    given the LR1110 crypto-engine slot that holds it. */
module KeyIds {
  import opened Bytes

  /** Number of key identifiers the translator recognises (NUM_OF_KEYS). */
  const NUM_OF_KEYS: nat := 23

  /** A logical key of the LoRaWAN stack. `UnknownKeyId` stands for every
      identifier value outside the recognised ones (NO_KEY, for instance);
      its code is the raw value and plays no part in the translation. */
  datatype KeyId =
    | AppKey | NwkKey | JSIntKey | JSEncKey
    | FNwkSIntKey | SNwkSIntKey | NwkSEncKey | AppSKey
    | McRootKey | McKeKey
    | McKey0 | McAppSKey0 | McNwkSKey0
    | McKey1 | McAppSKey1 | McNwkSKey1
    | McKey2 | McAppSKey2 | McNwkSKey2
    | McKey3 | McAppSKey3 | McNwkSKey3
    | SlotRandZeroKey
    | UnknownKeyId(code: int)

  /** A key slot of the LR1110 crypto engine (lr1110_crypto_keys_idx_t). The
      numeric slot values are not part of this model: the slots are only
      distinct names. */
  datatype Slot =
    | IdxAppKey | IdxNwkKey | IdxJSIntKey | IdxJSEncKey
    | IdxFNwkSIntKey | IdxSNwkSIntKey | IdxNwkSEncKey | IdxAppSKey
    | IdxGpKeKey0 | IdxGpKeKey1 | IdxGpKeKey2 | IdxGpKeKey3 | IdxGpKeKey4 | IdxGpKeKey5
    | IdxMcAppSKey0 | IdxMcAppSKey1 | IdxMcAppSKey2 | IdxMcAppSKey3
    | IdxMcNwkSKey0 | IdxMcNwkSKey1 | IdxMcNwkSKey2 | IdxMcNwkSKey3
    | IdxGp0 | IdxGp1

  /** The identifiers with a case of their own in the translation. */
  predicate IsRecognized(k: KeyId) {
    !k.UnknownKeyId?
  }

  /** The four multicast keys that reach the secure element encrypted. */
  predicate IsMulticastKey(k: KeyId) {
    k == McKey0 || k == McKey1 || k == McKey2 || k == McKey3
  }

  /** Reference inverse of the translation: the recognised identifier stored
      in a slot, or None for the fallback slot. */
  function KeyIdOf(s: Slot): Option<KeyId> {
    match s
    case IdxAppKey => Some(AppKey)
    case IdxNwkKey => Some(NwkKey)
    case IdxJSIntKey => Some(JSIntKey)
    case IdxJSEncKey => Some(JSEncKey)
    case IdxFNwkSIntKey => Some(FNwkSIntKey)
    case IdxSNwkSIntKey => Some(SNwkSIntKey)
    case IdxNwkSEncKey => Some(NwkSEncKey)
    case IdxAppSKey => Some(AppSKey)
    case IdxGpKeKey5 => Some(McRootKey)
    case IdxGpKeKey4 => Some(McKeKey)
    case IdxGpKeKey0 => Some(McKey0)
    case IdxGpKeKey1 => Some(McKey1)
    case IdxGpKeKey2 => Some(McKey2)
    case IdxGpKeKey3 => Some(McKey3)
    case IdxMcAppSKey0 => Some(McAppSKey0)
    case IdxMcAppSKey1 => Some(McAppSKey1)
    case IdxMcAppSKey2 => Some(McAppSKey2)
    case IdxMcAppSKey3 => Some(McAppSKey3)
    case IdxMcNwkSKey0 => Some(McNwkSKey0)
    case IdxMcNwkSKey1 => Some(McNwkSKey1)
    case IdxMcNwkSKey2 => Some(McNwkSKey2)
    case IdxMcNwkSKey3 => Some(McNwkSKey3)
    case IdxGp0 => Some(SlotRandZeroKey)
    case IdxGp1 => None
  }

  /** convert_key_id_from_se_to_lr1110: total; the identifiers it does not
      recognise, and only those, fall back to GP1. */
  function SlotFor(k: KeyId): (s: Slot)
    ensures IsRecognized(k) <==> s != IdxGp1
  {
    match k
    case AppKey => IdxAppKey
    case NwkKey => IdxNwkKey
    case JSIntKey => IdxJSIntKey
    case JSEncKey => IdxJSEncKey
    case FNwkSIntKey => IdxFNwkSIntKey
    case SNwkSIntKey => IdxSNwkSIntKey
    case NwkSEncKey => IdxNwkSEncKey
    case AppSKey => IdxAppSKey
    case McRootKey => IdxGpKeKey5
    case McKeKey => IdxGpKeKey4
    case McKey0 => IdxGpKeKey0
    case McAppSKey0 => IdxMcAppSKey0
    case McNwkSKey0 => IdxMcNwkSKey0
    case McKey1 => IdxGpKeKey1
    case McAppSKey1 => IdxMcAppSKey1
    case McNwkSKey1 => IdxMcNwkSKey1
    case McKey2 => IdxGpKeKey2
    case McAppSKey2 => IdxMcAppSKey2
    case McNwkSKey2 => IdxMcNwkSKey2
    case McKey3 => IdxGpKeKey3
    case McAppSKey3 => IdxMcAppSKey3
    case McNwkSKey3 => IdxMcNwkSKey3
    case SlotRandZeroKey => IdxGp0
    case UnknownKeyId(_) => IdxGp1
  }

  /** The recognised identifiers, one entry each. */
  const RecognizedKeyIds: seq<KeyId> := [
    AppKey, NwkKey, JSIntKey, JSEncKey, FNwkSIntKey, SNwkSIntKey, NwkSEncKey, AppSKey,
    McRootKey, McKeKey,
    McKey0, McAppSKey0, McNwkSKey0, McKey1, McAppSKey1, McNwkSKey1,
    McKey2, McAppSKey2, McNwkSKey2, McKey3, McAppSKey3, McNwkSKey3,
    SlotRandZeroKey
  ]

  /** The translator recognises exactly NUM_OF_KEYS identifiers. */
  lemma RecognizedKeyIdsComplete(k: KeyId)
    ensures |RecognizedKeyIds| == NUM_OF_KEYS
    ensures IsRecognized(k) <==> k in RecognizedKeyIds
  {
    if IsRecognized(k) {
      match k
      case AppKey => assert RecognizedKeyIds[0] == k;
      case NwkKey => assert RecognizedKeyIds[1] == k;
      case JSIntKey => assert RecognizedKeyIds[2] == k;
      case JSEncKey => assert RecognizedKeyIds[3] == k;
      case FNwkSIntKey => assert RecognizedKeyIds[4] == k;
      case SNwkSIntKey => assert RecognizedKeyIds[5] == k;
      case NwkSEncKey => assert RecognizedKeyIds[6] == k;
      case AppSKey => assert RecognizedKeyIds[7] == k;
      case McRootKey => assert RecognizedKeyIds[8] == k;
      case McKeKey => assert RecognizedKeyIds[9] == k;
      case McKey0 => assert RecognizedKeyIds[10] == k;
      case McAppSKey0 => assert RecognizedKeyIds[11] == k;
      case McNwkSKey0 => assert RecognizedKeyIds[12] == k;
      case McKey1 => assert RecognizedKeyIds[13] == k;
      case McAppSKey1 => assert RecognizedKeyIds[14] == k;
      case McNwkSKey1 => assert RecognizedKeyIds[15] == k;
      case McKey2 => assert RecognizedKeyIds[16] == k;
      case McAppSKey2 => assert RecognizedKeyIds[17] == k;
      case McNwkSKey2 => assert RecognizedKeyIds[18] == k;
      case McKey3 => assert RecognizedKeyIds[19] == k;
      case McAppSKey3 => assert RecognizedKeyIds[20] == k;
      case McNwkSKey3 => assert RecognizedKeyIds[21] == k;
      case SlotRandZeroKey => assert RecognizedKeyIds[22] == k;
    }
  }

  /** Each recognised identifier gets a slot of its own: KeyIdOf takes the
      slot back to the identifier. */
  lemma SlotForLeftInverse(k: KeyId)
    requires IsRecognized(k)
    ensures KeyIdOf(SlotFor(k)) == Some(k)
  {
  }

  /** The multicast keys are exactly the identifiers kept in GP_KE_KEY_0..3. */
  lemma MulticastKeySlots(k: KeyId)
    ensures IsMulticastKey(k) <==> SlotFor(k) in {IdxGpKeKey0, IdxGpKeKey1, IdxGpKeKey2, IdxGpKeKey3}
  {
  }

  /** Two recognised identifiers never share a slot. */
  lemma SlotForInjective(a: KeyId, b: KeyId)
    requires IsRecognized(a) && IsRecognized(b)
    requires SlotFor(a) == SlotFor(b)
    ensures a == b
  {
    SlotForLeftInverse(a);
    SlotForLeftInverse(b);
  }
}
