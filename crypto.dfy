/** The crypto facade: each secure-element operation checks its pointer
    arguments, translates key identifiers and hands the work to the LR1110;
    operations that change keys then ask it to persist its key store. */
module Crypto {
  import opened Bytes
  import opened KeyIds
  import opened Coprocessor

  /** MIC_BLOCK_BX_SIZE: the B0 block that may prefix a CMAC input. */
  const MIC_BLOCK_BX_SIZE: nat := 16
  /** CRYPTO_MAXMESSAGE_SIZE. */
  const CRYPTO_MAXMESSAGE_SIZE: nat := 256
  /** CRYPTO_BUFFER_SIZE: room for the largest message behind a B0 block. */
  const CRYPTO_BUFFER_SIZE: nat := CRYPTO_MAXMESSAGE_SIZE + MIC_BLOCK_BX_SIZE

  /** Largest value of the 16-bit size arguments. */
  const UINT16_MAX: nat := 0xFFFF

  /** The scratch buffer micBuff of SecureElementComputeAesCmac: zero-filled,
      then the B0 block, then the message; the CMAC input is its first
      `size + MIC_BLOCK_BX_SIZE` bytes and the rest stays zero. */
  method BuildMicBuffer(micBx: seq<bv8>, buffer: seq<bv8>, size: nat) returns (micBuff: seq<bv8>)
    requires |micBx| >= MIC_BLOCK_BX_SIZE
    requires size <= |buffer| && size <= CRYPTO_MAXMESSAGE_SIZE
    ensures |micBuff| == CRYPTO_BUFFER_SIZE
    ensures micBuff[..MIC_BLOCK_BX_SIZE + size] == micBx[..MIC_BLOCK_BX_SIZE] + buffer[..size]
    ensures forall i :: MIC_BLOCK_BX_SIZE + size <= i < CRYPTO_BUFFER_SIZE ==> micBuff[i] == 0
  {
    var a := new bv8[CRYPTO_BUFFER_SIZE];
    Memset1(a, 0, CRYPTO_BUFFER_SIZE);
    Memcpy1(a, 0, micBx, MIC_BLOCK_BX_SIZE);
    Memcpy1(a, MIC_BLOCK_BX_SIZE, buffer, size);
    micBuff := a[..];
  }

  /** SecureElementSetKey: NULL is refused before any LR1110 request. A
      multicast key arrives encrypted and is derived-and-stored under the
      McKeKey root; any other key is set directly. Only when that step
      succeeds is the key store persisted, and then the result is the persist
      status; otherwise it is the first step's status. */
  method SetKey(chip: Lr1110, keyId: KeyId, key: Option<seq<bv8>>,
                firstReply: SeStatus, storeReply: SeStatus)
    returns (status: SeStatus)
    modifies chip
    ensures key.None? ==> status == ErrorNpe && chip.log == old(chip.log)
    ensures key.Some? ==>
              var request := if IsMulticastKey(keyId)
                             then CryptoDeriveAndStoreKey(SlotFor(McKeKey), SlotFor(keyId), key.value)
                             else CryptoSetKey(SlotFor(keyId), key.value);
              chip.log == old(chip.log) + [request]
                          + (if firstReply == Success then [CryptoStoreToFlash] else [])
    ensures key.Some? ==> status == if firstReply == Success then storeReply else firstReply
  {
    if key.None? {
      return ErrorNpe;
    }
    if keyId == McKey0 || keyId == McKey1 || keyId == McKey2 || keyId == McKey3 {
      status := chip.DeriveAndStoreKey(SlotFor(McKeKey), SlotFor(keyId), key.value, firstReply);
      if status == Success {
        status := chip.StoreToFlash(storeReply);
      }
      return status;
    } else {
      status := chip.SetKey(SlotFor(keyId), key.value, firstReply);
      if status == Success {
        status := chip.StoreToFlash(storeReply);
      }
      return status;
    }
  }

  /** SecureElementComputeAesCmac: with a B0 block the LR1110 is given the
      block followed by the message (size + 16 bytes); without one it is given
      the message itself. The result is the LR1110's status and tag. The
      message pointer is not checked. */
  method ComputeAesCmac(chip: Lr1110, micBxBuffer: Option<seq<bv8>>, buffer: seq<bv8>, size: nat,
                        keyId: KeyId, reply: SeStatus, tag: bv32)
    returns (status: SeStatus, cmac: bv32)
    requires size <= UINT16_MAX && size <= |buffer|
    requires micBxBuffer.Some? ==> |micBxBuffer.value| >= MIC_BLOCK_BX_SIZE && size <= CRYPTO_MAXMESSAGE_SIZE
    modifies chip
    ensures micBxBuffer.Some? ==>
              chip.log == old(chip.log)
                          + [CryptoComputeAesCmac(SlotFor(keyId), micBxBuffer.value[..MIC_BLOCK_BX_SIZE] + buffer[..size])]
    ensures micBxBuffer.None? ==>
              chip.log == old(chip.log) + [CryptoComputeAesCmac(SlotFor(keyId), buffer[..size])]
    ensures status == reply && cmac == tag
  {
    var localSize := size;
    var localBuffer := buffer;
    if micBxBuffer.Some? {
      var micBuff := BuildMicBuffer(micBxBuffer.value, buffer, size);
      localSize := localSize + MIC_BLOCK_BX_SIZE;
      localBuffer := micBuff;
    }
    status, cmac := chip.ComputeAesCmac(SlotFor(keyId), localBuffer[..localSize], reply, tag);
  }

  /** SecureElementVerifyAesCmac: NULL is refused before any LR1110 request;
      otherwise the LR1110 compares and its status is the result. */
  method VerifyAesCmac(chip: Lr1110, buffer: Option<seq<bv8>>, size: nat, expectedCmac: bv32,
                       keyId: KeyId, reply: SeStatus)
    returns (status: SeStatus)
    requires size <= UINT16_MAX
    requires buffer.Some? ==> size <= |buffer.value|
    modifies chip
    ensures buffer.None? ==> status == ErrorNpe && chip.log == old(chip.log)
    ensures buffer.Some? ==>
              && chip.log == old(chip.log) + [CryptoVerifyAesCmac(SlotFor(keyId), buffer.value[..size], expectedCmac)]
              && status == reply
  {
    if buffer.None? {
      return ErrorNpe;
    }
    status := chip.VerifyAesCmac(SlotFor(keyId), buffer.value[..size], expectedCmac, reply);
  }

  /** SecureElementAesEncrypt: a NULL input or output is refused before any
      LR1110 request and the output is untouched; otherwise the LR1110
      encrypts into encBuffer and its status is the result. */
  method AesEncrypt(chip: Lr1110, buffer: Option<seq<bv8>>, size: nat, keyId: KeyId,
                    encBuffer: array?<bv8>, reply: SeStatus, cipher: seq<bv8>)
    returns (status: SeStatus)
    requires size <= UINT16_MAX
    requires buffer.Some? ==> size <= |buffer.value|
    requires encBuffer != null ==> |cipher| <= encBuffer.Length
    modifies chip, encBuffer
    ensures buffer.None? || encBuffer == null ==>
              && status == ErrorNpe && chip.log == old(chip.log)
              && (encBuffer != null ==> encBuffer[..] == old(encBuffer[..]))
    ensures buffer.Some? && encBuffer != null ==>
              && chip.log == old(chip.log) + [CryptoAesEncrypt01(SlotFor(keyId), buffer.value[..size])]
              && encBuffer[..] == Overlay(old(encBuffer[..]), 0, cipher)
              && status == reply
  {
    if buffer.None? || encBuffer == null {
      return ErrorNpe;
    }
    status := chip.AesEncrypt01(SlotFor(keyId), buffer.value[..size], encBuffer, reply, cipher);
  }

  /** SecureElementDeriveAndStoreKey: NULL is refused before any LR1110
      request; otherwise the key is derived and stored and the key store is
      persisted whatever the derivation reported, and the result is the
      persist status. The version argument is not used. */
  method DeriveAndStoreKey(chip: Lr1110, version: bv32, input: Option<seq<bv8>>,
                           rootKeyId: KeyId, targetKeyId: KeyId,
                           deriveReply: SeStatus, storeReply: SeStatus)
    returns (status: SeStatus)
    modifies chip
    ensures input.None? ==> status == ErrorNpe && chip.log == old(chip.log)
    ensures input.Some? ==>
              && chip.log == old(chip.log)
                             + [CryptoDeriveAndStoreKey(SlotFor(rootKeyId), SlotFor(targetKeyId), input.value),
                                CryptoStoreToFlash]
              && status == storeReply
  {
    if input.None? {
      return ErrorNpe;
    }
    status := chip.DeriveAndStoreKey(SlotFor(rootKeyId), SlotFor(targetKeyId), input.value, deriveReply);
    status := chip.StoreToFlash(storeReply);
  }

  /** SecureElementRandomNumber: a NULL output is refused without asking the
      HAL; otherwise one HAL draw is written to the output and the result is
      SUCCESS. */
  method RandomNumber(hal: SeHal, randomNum: array?<bv32>, draw: bv32) returns (status: SeStatus)
    requires randomNum != null ==> randomNum.Length >= 1
    modifies hal, randomNum
    ensures randomNum == null ==> status == ErrorNpe && hal.calls == old(hal.calls)
    ensures randomNum != null ==>
              && status == Success
              && hal.calls == old(hal.calls) + [HalGetRandomNumber]
              && randomNum[..] == old(randomNum[..])[0 := draw]
  {
    if randomNum == null {
      return ErrorNpe;
    }
    var r := hal.GetRandomNumber(draw);
    randomNum[0] := r;
    return Success;
  }
}
