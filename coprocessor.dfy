/** The collaborators the secure element talks to, as oracles: the LR1110
    (crypto engine and system commands) and the board HAL of the secure
    element. Each records the requests it receives in a ghost log; whatever it
    answers (a status, bytes it writes back) is supplied by the caller. */
module Coprocessor {
  import opened Bytes
  import opened KeyIds

  /** SecureElementStatus_t, as far as the adapter names its values; every
      other code the LR1110 may report is `OtherStatus`. */
  datatype SeStatus =
    | Success
    | Error
    | ErrorNpe
    | ErrorBufSize
    | OtherStatus(code: nat)

  /** One request sent to the LR1110, with the bytes it is given to read. */
  datatype Command =
    | CryptoRestoreFromFlash
    | CryptoStoreToFlash
    | CryptoSetKey(slot: Slot, key: seq<bv8>)
    | CryptoDeriveAndStoreKey(root: Slot, target: Slot, input: seq<bv8>)
    | CryptoComputeAesCmac(slot: Slot, data: seq<bv8>)
    | CryptoVerifyAesCmac(slot: Slot, data: seq<bv8>, expected: bv32)
    | CryptoAesEncrypt01(slot: Slot, data: seq<bv8>)
      /** The engine is pointed at offset 1 of `frame` (past the MHDR) and
          told to process `length` bytes from there. */
    | CryptoProcessJoinAccept(decSlot: Slot, intSlot: Slot, version: nat, header: seq<bv8>,
                              frame: seq<bv8>, length: int)
    | SystemReadUid
    | SystemReadJoinEui
    | SystemReadPin

  /** The LR1110's answer to one process-join-accept request: its status and
      the decrypted bytes it writes from offset 1 of the output buffer. */
  datatype Trial = Trial(status: SeStatus, plain: seq<bv8>)

  /** The LR1110 radio context (`LR1110` in the adapter). */
  class Lr1110 {
    ghost var log: seq<Command>

    constructor ()
      ensures log == []
    {
      log := [];
    }

    method RestoreFromFlash(reply: SeStatus) returns (status: SeStatus)
      modifies this
      ensures log == old(log) + [CryptoRestoreFromFlash] && status == reply
    {
      log := log + [CryptoRestoreFromFlash];
      status := reply;
    }

    method StoreToFlash(reply: SeStatus) returns (status: SeStatus)
      modifies this
      ensures log == old(log) + [CryptoStoreToFlash] && status == reply
    {
      log := log + [CryptoStoreToFlash];
      status := reply;
    }

    method SetKey(slot: Slot, key: seq<bv8>, reply: SeStatus) returns (status: SeStatus)
      modifies this
      ensures log == old(log) + [CryptoSetKey(slot, key)] && status == reply
    {
      log := log + [CryptoSetKey(slot, key)];
      status := reply;
    }

    method DeriveAndStoreKey(root: Slot, target: Slot, input: seq<bv8>, reply: SeStatus)
      returns (status: SeStatus)
      modifies this
      ensures log == old(log) + [CryptoDeriveAndStoreKey(root, target, input)] && status == reply
    {
      log := log + [CryptoDeriveAndStoreKey(root, target, input)];
      status := reply;
    }

    method ComputeAesCmac(slot: Slot, data: seq<bv8>, reply: SeStatus, tag: bv32)
      returns (status: SeStatus, cmac: bv32)
      modifies this
      ensures log == old(log) + [CryptoComputeAesCmac(slot, data)]
      ensures status == reply && cmac == tag
    {
      log := log + [CryptoComputeAesCmac(slot, data)];
      status, cmac := reply, tag;
    }

    method VerifyAesCmac(slot: Slot, data: seq<bv8>, expected: bv32, reply: SeStatus)
      returns (status: SeStatus)
      modifies this
      ensures log == old(log) + [CryptoVerifyAesCmac(slot, data, expected)] && status == reply
    {
      log := log + [CryptoVerifyAesCmac(slot, data, expected)];
      status := reply;
    }

    /** Encrypts `data`; the engine writes `cipher` to the start of `out`. */
    method AesEncrypt01(slot: Slot, data: seq<bv8>, out: array<bv8>, reply: SeStatus, cipher: seq<bv8>)
      returns (status: SeStatus)
      requires |cipher| <= out.Length
      modifies this, out
      ensures log == old(log) + [CryptoAesEncrypt01(slot, data)] && status == reply
      ensures out[..] == Overlay(old(out[..]), 0, cipher)
    {
      log := log + [CryptoAesEncrypt01(slot, data)];
      Memcpy1(out, 0, cipher, |cipher|);
      status := reply;
    }

    /** Checks and decrypts a join-accept; the engine writes the decrypted
        bytes from offset 1 of `dec`. */
    method ProcessJoinAccept(decSlot: Slot, intSlot: Slot, version: nat, header: seq<bv8>,
                             frame: seq<bv8>, length: int, dec: array<bv8>, reply: Trial)
      returns (status: SeStatus)
      requires 1 + |reply.plain| <= dec.Length
      modifies this, dec
      ensures log == old(log) + [CryptoProcessJoinAccept(decSlot, intSlot, version, header, frame, length)]
      ensures dec[..] == Overlay(old(dec[..]), 1, reply.plain)
      ensures status == reply.status
    {
      log := log + [CryptoProcessJoinAccept(decSlot, intSlot, version, header, frame, length)];
      Memcpy1(dec, 1, reply.plain, |reply.plain|);
      status := reply.status;
    }

    /** lr1110_system_read_uid and its siblings: the chip writes its
        provisioned value into `dst`. */
    method ReadUid(dst: array<bv8>, uid: seq<bv8>)
      requires |uid| == dst.Length
      modifies this, dst
      ensures log == old(log) + [SystemReadUid] && dst[..] == uid
    {
      log := log + [SystemReadUid];
      Memcpy1(dst, 0, uid, |uid|);
    }

    method ReadJoinEui(dst: array<bv8>, joinEui: seq<bv8>)
      requires |joinEui| == dst.Length
      modifies this, dst
      ensures log == old(log) + [SystemReadJoinEui] && dst[..] == joinEui
    {
      log := log + [SystemReadJoinEui];
      Memcpy1(dst, 0, joinEui, |joinEui|);
    }

    method ReadPin(dst: array<bv8>, pin: seq<bv8>)
      requires |pin| == dst.Length
      modifies this, dst
      ensures log == old(log) + [SystemReadPin] && dst[..] == pin
    {
      log := log + [SystemReadPin];
      Memcpy1(dst, 0, pin, |pin|);
    }
  }

  /** One request to the secure element's board HAL. */
  datatype HalCall = HalGetRandomNumber | HalGetUniqueId

  /** The board HAL (LR1110SeHalGetRandomNumber, LR1110SeHalGetUniqueId). */
  class SeHal {
    ghost var calls: seq<HalCall>

    constructor ()
      ensures calls == []
    {
      calls := [];
    }

    method GetRandomNumber(draw: bv32) returns (r: bv32)
      modifies this
      ensures calls == old(calls) + [HalGetRandomNumber] && r == draw
    {
      calls := calls + [HalGetRandomNumber];
      r := draw;
    }

    method GetUniqueId(dst: array<bv8>, id: seq<bv8>)
      requires |id| == dst.Length
      modifies this, dst
      ensures calls == old(calls) + [HalGetUniqueId] && dst[..] == id
    {
      calls := calls + [HalGetUniqueId];
      Memcpy1(dst, 0, id, |id|);
    }
  }
}
