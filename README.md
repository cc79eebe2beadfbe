# LR1110 secure element adapter, modelled in Dafny

This project models the host side of the LoRaWAN secure element that runs on an
LR1110 (`lr1110-se.c`). The LR1110 holds the keys and does the AES, AES-CMAC and
key-derivation work. The adapter only checks arguments, translates key identifiers,
builds MIC headers and buffers, and interprets the chip's statuses. The model has
four parts, each in its own module:

- `KeyIds` (`key_ids.dfy`): the key-identifier translator. It is a pure total
  function from the 23 logical keys (plus any other identifier value) to LR1110 key
  slots.
- `Identity` (`identity.dfy`): the identity record `SeContext` (DevEUI, JoinEUI,
  PIN). It is a class whose three byte arrays are overwritten in place by the
  setters, by restore and by initialisation. A ghost counter counts how often the
  change callback `SeNvmCtxChanged` fires.
- `Crypto` (`crypto.dfy`): the facade operations set-key, compute/verify CMAC,
  AES encrypt, derive-and-store, and random number.
- `JoinAccept` (`join_accept.dfy`): the two-trial join-accept decryption. Trial 1
  uses the LoRaWAN 1.0.x MIC scheme. Trial 2 uses the 1.1.x scheme and is only
  compiled in when 1.1.x crypto is enabled. The OptNeg bit of the decrypted
  DLSettings byte decides between them (section 6.2.3 of the LoRaWAN 1.1
  specification).

Supporting modules:

- `Coprocessor` (`coprocessor.dfy`) holds the collaborators as oracle objects. One
  is the LR1110 (`Lr1110`), the other is the board HAL (`SeHal`). Each keeps a
  ghost log of the requests it received. Whatever they answer is a parameter of the
  calling operation: a status, the bytes they write back, a random draw. The
  contracts therefore state which requests are made, in what order and with what
  arguments, and how their answers become the result.
- `Bytes` (`bytes.dfy`) holds `memset1`, `memcpy1` and `memcpyr` as loops over
  arrays, together with the sequence functions that specify them.

A NULL input pointer is modelled as `Option.None`. An output the code writes
through a pointer (`decJoinAccept`, `versionMinor`, `randomNum`, `encBuffer`) is a
nullable array. The build switches `USE_LRWAN_1_1_X_CRYPTO`,
`SECURE_ELEMENT_PRE_PROVISIONED` and `STATIC_DEVICE_EUI` are boolean parameters.

Constants defined in headers that are not part of this model take the values of
the LoRaMac stack and of the LoRaWAN 1.1 specification:

| constant | value |
|---|---|
| `SE_EUI_SIZE` | 8 |
| `SE_PIN_SIZE` | 4 |
| `LORAMAC_JOIN_ACCEPT_FRAME_MAX_SIZE` | 33 |
| `LORAMAC_JOIN_EUI_FIELD_SIZE` | 8 |
| `JOIN_ACCEPT_MIC_COMPUTATION_OFFSET` | 12 |
| `JOIN_REQ` | 0xFF (JoinReqType of a Join-request) |

Behaviour of the code worth noting:

- `SecureElementComputeAesCmac` does not reject a NULL message pointer.
- `SecureElementProcessJoinAccept` checks for NULL pointers before it checks the
  frame size.
- A consistent version is not required for SUCCESS. A 1.1.x trial that succeeds
  with the OptNeg bit clear still reports SUCCESS, and so does a 1.0.x trial with
  the bit set when 1.1.x crypto is not built in.

## Model

| member | source | states |
|---|---|---|
| `KeyIds.SlotFor` | components/connectivity/LoraWAN/peripherals/lr1110-se/lr1110-se.c:426-506 | Total translation. GP1 is the slot of exactly the unrecognised identifiers (the default case). |
| `KeyIds.SlotForLeftInverse` | components/connectivity/LoraWAN/peripherals/lr1110-se/lr1110-se.c:430-500 | Each recognised identifier gets a slot that the reference inverse `KeyIdOf` maps back to it. |
| `KeyIds.MulticastKeySlots` | components/connectivity/LoraWAN/peripherals/lr1110-se/lr1110-se.c:462-497 | MC_KEY_0..3 are exactly the identifiers that land in GP_KE_KEY_0..3. |
| `KeyIds.KeyIdOf` | components/connectivity/LoraWAN/peripherals/lr1110-se/lr1110-se.c:430-503 | Reference inverse of the switch: slot to the recognised identifier it holds, or None for GP1. |
| `KeyIds.SlotForInjective` | components/connectivity/LoraWAN/peripherals/lr1110-se/lr1110-se.c:430-503 | Two recognised identifiers with the same slot are equal. |
| `KeyIds.RecognizedKeyIdsComplete` | components/connectivity/LoraWAN/peripherals/lr1110-se/lr1110-se.c:35 | The recognised identifiers are exactly the NUM_OF_KEYS (23) listed ones. |
| `Identity.Layout` | components/connectivity/LoraWAN/peripherals/lr1110-se/lr1110-se.c:55-69 | SeContext is DevEui, JoinEui, Pin back to back (20 bytes), and each field can be read back from the layout. |
| `Identity.LayoutOfFields` | components/connectivity/LoraWAN/peripherals/lr1110-se/lr1110-se.c:159 | Reading the three fields off a blob and laying them out again gives the blob's first sizeof(SeContext) bytes. |
| `Identity.IdentityStore.constructor` | components/connectivity/LoraWAN/peripherals/lr1110-se/lr1110-se.c:71-89 | The static record holds the compiled-in defaults. No callback is installed yet and none has fired. |
| `Identity.IdentityStore.Init` | components/connectivity/LoraWAN/peripherals/lr1110-se/lr1110-se.c:113-144 | Installs the user callback or DummyCB and restores the crypto context from flash. Then it reads uid/JoinEUI/PIN from the chip when pre-provisioned, else takes the DevEUI from the HAL unique id unless static. The callback fires exactly once and the result is the restore status. |
| `Identity.IdentityStore.RestoreNvmCtx` | components/connectivity/LoraWAN/peripherals/lr1110-se/lr1110-se.c:146-162 | NULL gives NPE with no chip request and the record unchanged. Otherwise one restore-from-flash request is made, the record becomes the blob's first 20 bytes and the result is the restore status. |
| `Identity.IdentityStore.GetNvmCtx` | components/connectivity/LoraWAN/peripherals/lr1110-se/lr1110-se.c:164-168 | Returns the record `Record()` (the three fields in layout order) and its size sizeof(SeContext) = 20. |
| `Identity.IdentityStore.SetDevEui` | components/connectivity/LoraWAN/peripherals/lr1110-se/lr1110-se.c:377-386 | NULL gives NPE, with the record unchanged and no callback, also before Init. Otherwise DevEui equals the 8 input bytes, JoinEui and Pin are unchanged, the callback fires once and the result is SUCCESS. |
| `Identity.IdentityStore.GetDevEui` | components/connectivity/LoraWAN/peripherals/lr1110-se/lr1110-se.c:388-391 | Returns the live DevEui storage (8 bytes), so it shows what the last setter wrote. |
| `Identity.IdentityStore.SetJoinEui` | components/connectivity/LoraWAN/peripherals/lr1110-se/lr1110-se.c:393-402 | As SetDevEui, for JoinEui. |
| `Identity.IdentityStore.GetJoinEui` | components/connectivity/LoraWAN/peripherals/lr1110-se/lr1110-se.c:404-407 | Returns the live JoinEui storage (8 bytes). |
| `Identity.IdentityStore.SetPin` | components/connectivity/LoraWAN/peripherals/lr1110-se/lr1110-se.c:409-419 | As SetDevEui, for the 4-byte Pin. |
| `Identity.IdentityStore.GetPin` | components/connectivity/LoraWAN/peripherals/lr1110-se/lr1110-se.c:421-424 | Returns the live Pin storage (4 bytes). |
| `Identity.ExportThenRestore` | components/connectivity/LoraWAN/peripherals/lr1110-se/lr1110-se.c:146-168 | Export followed by restore of the exported blob leaves the record identical. The result is the chip's restore status. |
| `Identity.SetThenGet` | components/connectivity/LoraWAN/peripherals/lr1110-se/lr1110-se.c:377-424 | After the three setters, the getters return exactly the bytes written, and the callback has fired three times. |
| `Crypto.BuildMicBuffer` | components/connectivity/LoraWAN/peripherals/lr1110-se/lr1110-se.c:211-221 | The 272-byte scratch buffer starts with the 16-byte B0 block followed by the message, and is zero after them. |
| `Crypto.ComputeAesCmac` | components/connectivity/LoraWAN/peripherals/lr1110-se/lr1110-se.c:204-228 | With a B0 block, exactly one CMAC request is made, on B0[0..16] ++ buffer[0..size]. Without one, the request is on buffer[0..size]. The slot is that of the key, and the status and tag are the chip's. |
| `Crypto.VerifyAesCmac` | components/connectivity/LoraWAN/peripherals/lr1110-se/lr1110-se.c:230-245 | NULL gives NPE with no chip request. Otherwise one verify request is made with the message, expected tag and key slot, and the result is the chip's status. |
| `Crypto.AesEncrypt` | components/connectivity/LoraWAN/peripherals/lr1110-se/lr1110-se.c:247-261 | A NULL input or output gives NPE with no chip request and the output untouched. Otherwise one encrypt request is made, the chip's ciphertext lands in encBuffer and the result is the chip's status. |
| `Crypto.DeriveAndStoreKey` | components/connectivity/LoraWAN/peripherals/lr1110-se/lr1110-se.c:263-279 | NULL gives NPE with no chip request. Otherwise derive-and-store (root slot, target slot, input) is followed by store-to-flash unconditionally, and the result is the store status. |
| `Crypto.SetKey` | components/connectivity/LoraWAN/peripherals/lr1110-se/lr1110-se.c:170-202 | NULL gives NPE with no chip request. MC_KEY_0..3 go to derive-and-store under the MC_KE_KEY slot, and every other key goes to set-key. Store-to-flash follows only if that step succeeded. The result is the store status on success, else the first status. |
| `Crypto.RandomNumber` | components/connectivity/LoraWAN/peripherals/lr1110-se/lr1110-se.c:367-375 | A NULL output gives NPE with no HAL call. Otherwise one HAL draw is written to the output and the result is SUCCESS. |
| `Bytes.OverlayParts` | components/connectivity/LoraWAN/peripherals/lr1110-se/lr1110-se.c:319 | Writing data at an offset puts it there and keeps the bytes before and after it. |
| `Bytes.Memset1` | components/connectivity/LoraWAN/peripherals/lr1110-se/lr1110-se.c:215 | The first size bytes become the value, and the rest are unchanged. |
| `Bytes.Memcpy1` | components/connectivity/LoraWAN/peripherals/lr1110-se/lr1110-se.c:383 | The first size source bytes are copied at the offset, and the rest are unchanged. |
| `Bytes.Memcpyr` | components/connectivity/LoraWAN/peripherals/lr1110-se/lr1110-se.c:340 | The first size source bytes are copied at the offset in reverse order, and the rest are unchanged. |
| `JoinAccept.EncKeyFor` | components/connectivity/LoraWAN/peripherals/lr1110-se/lr1110-se.c:299-305 | The decryption key is NWK_KEY iff joinReqType is JOIN_REQ, and J_S_ENC_KEY otherwise. |
| `JoinAccept.MicHeader11Layout` | components/connectivity/LoraWAN/peripherals/lr1110-se/lr1110-se.c:333-346 | The 1.1.x header is 12 bytes: the join-request type, the JoinEUI byte-reversed, DevNonce as low byte then high byte (reassembling to DevNonce), then MHDR 0x20. |
| `JoinAccept.BuildMicHeader11` | components/connectivity/LoraWAN/peripherals/lr1110-se/lr1110-se.c:333-346 | The cursor-built buffer equals the 12-byte header MicHeader11. |
| `JoinAccept.ApplyEffect` | components/connectivity/LoraWAN/peripherals/lr1110-se/lr1110-se.c:316-329 | What one request does to the outputs: the chip's bytes land from decJoinAccept+1 and the MHDR byte and the tail stay. On SUCCESS versionMinor becomes 1 iff bit 7 of byte 11 is set (else 0); on failure it keeps its value. |
| `JoinAccept.RunTrial` | components/connectivity/LoraWAN/peripherals/lr1110-se/lr1110-se.c:316-329 | One process-join-accept request with the given slots, version and header. The result is the chip's status and the outputs change as `Apply` says. |
| `JoinAccept.CurrentSchemeTrial` | components/connectivity/LoraWAN/peripherals/lr1110-se/lr1110-se.c:333-351 | The 1.1.x request: the 12-byte header `MicHeader11`, the J_S_INT_KEY integrity slot and version 1. The outputs change as `Apply` says. |
| `JoinAccept.Decrypt` | components/connectivity/LoraWAN/peripherals/lr1110-se/lr1110-se.c:299-364 | After the argument checks: the requests, the result, the decrypted buffer and versionMinor are those of `Run`. |
| `JoinAccept.ProcessJoinAccept` | components/connectivity/LoraWAN/peripherals/lr1110-se/lr1110-se.c:281-365 | NULL pointers give NPE, then a size over 33 gives BUF_SIZE, both before any chip request and with the outputs untouched. Otherwise the requests, result, decrypted buffer and versionMinor are those of `Run`. |
| `JoinAccept.LegacyConsistentAcceptedAtOnce` | components/connectivity/LoraWAN/peripherals/lr1110-se/lr1110-se.c:311-329 | If trial 1 succeeds with bit 7 clear, there is exactly one request (header [0x20], NWK_KEY integrity slot, version 0). The result is SUCCESS with versionMinor 0. |
| `JoinAccept.CurrentSchemeFollows` | components/connectivity/LoraWAN/peripherals/lr1110-se/lr1110-se.c:331-364 | Otherwise, with 1.1.x built in, the second request uses the 12-byte header, the J_S_INT_KEY integrity slot and version 1. The result is the second request's status. |
| `JoinAccept.CurrentConsistentAccepted` | components/connectivity/LoraWAN/peripherals/lr1110-se/lr1110-se.c:353-360 | If trial 2 succeeds with bit 7 set, the result is SUCCESS with versionMinor 1 after two requests. |
| `JoinAccept.InconsistentCurrentStillSucceeds` | components/connectivity/LoraWAN/peripherals/lr1110-se/lr1110-se.c:353-364 | If trial 2 succeeds with bit 7 clear, the result is still SUCCESS, with versionMinor 0. |
| `JoinAccept.LegacyOnlyBuild` | components/connectivity/LoraWAN/peripherals/lr1110-se/lr1110-se.c:316-364 | Without 1.1.x crypto there is one request and its status is the result. A success with bit 7 set reports version 1. |
| `JoinAccept.VersionMinorOnlyOnSuccess` | components/connectivity/LoraWAN/peripherals/lr1110-se/lr1110-se.c:321-361 | versionMinor keeps its old value unless some request succeeded, and SUCCESS is reported only when some request succeeded. |
| `JoinAccept.DecryptionKeyOfEveryRequest` | components/connectivity/LoraWAN/peripherals/lr1110-se/lr1110-se.c:316-351 | Every request decrypts with the slot of the key chosen from the join-request type. |

The methods of `Coprocessor.Lr1110` and `Coprocessor.SeHal` have no rows. They
stand for the driver and HAL functions (`lr1110_crypto_*`, `lr1110_system_read_*`,
`LR1110SeHal*`), which are not part of this model. Each one only logs its request
and hands back the answer it is given.

## Left out

- The AES, AES-CMAC, key-derivation and join-accept cryptography runs inside the LR1110. The chip's statuses, tags, ciphertexts and decrypted bytes are free parameters.
- Flash persistence (`lr1110_crypto_restore_from_flash`, `lr1110_crypto_store_to_flash`) is modelled only as a logged request with a given status.
- Hardware sources (`LR1110SeHalGetRandomNumber`, `LR1110SeHalGetUniqueId`, `lr1110_system_read_uid/join_eui/pin`) give arbitrary values, supplied as parameters.
- The preprocessor is not modelled. The three build switches are boolean parameters.
- The numeric values of the key slots, the key identifiers and the status codes are not modelled, nor are the compiled-in default EUIs and PIN (they are defined in headers that are not part of this model). The cast of an `lr1110_crypto_status_t` into a `SecureElementStatus_t` is taken as the identity on `SeStatus`.
- The callback function pointer is reduced to which callback is installed (`Callback`) and a ghost count of its invocations. A setter given a non-NULL input requires Init to have installed one, because on that path the code calls `SeNvmCtxChanged`, which is a NULL function pointer before Init. A NULL input is answered with NPE whether or not Init has run.
- Identity.IdentityStore.GetNvmCtx returns the record's bytes, not a pointer to the live record, so writes through the exported pointer are not modelled.
- Input buffers are values, so aliasing between an input and the record (for example `SecureElementSetDevEui(SecureElementGetDevEui())`) is not modelled. JoinAccept.ProcessJoinAccept requires `decJoinAccept` and `versionMinor` to be distinct buffers, and `versionMinor` to be a one-byte buffer (the code writes only its first byte).
- Crypto.ComputeAesCmac requires `size <= 256` when a B0 block is given, because the code copies into a 272-byte stack buffer without checking. The message pointer is taken as non-NULL, because the code does not check it. The `cmac` output is returned, not written through a pointer.
- Crypto.DeriveAndStoreKey takes the `version` argument but, like the code, does not use it.
- JoinAccept.ProcessJoinAccept records the length handed to the chip as the integer `encJoinAcceptSize - 1`, so a size of 0 gives -1. How the driver converts it to its own parameter type is not modelled. The chip's decrypted output may be of any length that fits the buffer.
- JoinAccept.ProcessJoinAccept takes joinEui as non-NULL, because the code does not check it and, with 1.1.x crypto built in, reads it through `memcpyr`.
- Crypto.VerifyAesCmac records the expected tag as a 32-bit value. The code hands it over as the four bytes of a `uint32_t` in memory order.
