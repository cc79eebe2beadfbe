/** Join-accept decryption (SecureElementProcessJoinAccept): the frame is
    first processed as a LoRaWAN 1.0.x join-accept and, when that does not
    give a consistent answer and 1.1.x crypto is built in, as a LoRaWAN 1.1.x
    one. The OptNeg bit (bit 7 of DLSettings, section 6.2.3 of the LoRaWAN
    1.1 specification) of the decrypted frame tells which applies. */
module JoinAccept {
  import opened Bytes
  import opened KeyIds
  import opened Coprocessor

  /** JoinReqType of a Join-request (LoRaWAN 1.1, section 6.2.3); the other
      values are the Rejoin-request types. */
  const JOIN_REQ: bv8 := 0xFF
  /** LORAMAC_JOIN_ACCEPT_FRAME_MAX_SIZE: MHDR, JoinNonce, NetID, DevAddr,
      DLSettings, RxDelay, CFList and MIC. */
  const LORAMAC_JOIN_ACCEPT_FRAME_MAX_SIZE: nat := 33
  /** LORAMAC_JOIN_EUI_FIELD_SIZE. */
  const LORAMAC_JOIN_EUI_FIELD_SIZE: nat := 8
  /** JOIN_ACCEPT_MIC_COMPUTATION_OFFSET: JoinReqType, JoinEUI, DevNonce, MHDR. */
  const JOIN_ACCEPT_MIC_COMPUTATION_OFFSET: nat := 12
  /** MHDR of a join-accept (MType 001). */
  const JOIN_ACCEPT_MHDR: bv8 := 0x20
  /** Offset of DLSettings in the decrypted join-accept. */
  const DL_SETTINGS_OFFSET: nat := 11
  /** Largest value of the 8-bit encJoinAcceptSize argument. */
  const UINT8_MAX: nat := 0xFF

  /** The decryption key: NwkKey for a Join-request, JSEncKey for a Rejoin. */
  function EncKeyFor(joinReqType: bv8): (k: KeyId)
    ensures k == NwkKey <==> joinReqType == JOIN_REQ
    ensures k == JSEncKey <==> joinReqType != JOIN_REQ
  {
    if joinReqType != JOIN_REQ then JSEncKey else NwkKey
  }

  /** The minor version a DLSettings byte reports: its OptNeg bit. */
  function VersionMinorOf(dlSettings: bv8): bv8 {
    if dlSettings & 0x80 == 0x80 then 1 else 0
  }

  /** MIC header of the 1.0.x scheme: the MHDR alone. */
  const MicHeader10: seq<bv8> := [JOIN_ACCEPT_MHDR]

  /** MIC header of the 1.1.x scheme: JoinReqType, the JoinEUI byte-reversed,
      DevNonce low byte then high byte, MHDR. */
  function MicHeader11(joinReqType: bv8, joinEui: seq<bv8>, devNonce: bv16): seq<bv8>
    requires |joinEui| >= LORAMAC_JOIN_EUI_FIELD_SIZE
  {
    [joinReqType] + Reverse(joinEui[..LORAMAC_JOIN_EUI_FIELD_SIZE])
    + [(devNonce & 0xFF) as bv8, ((devNonce >> 8) & 0xFF) as bv8, JOIN_ACCEPT_MHDR]
  }

  /** The 1.1.x header byte by byte: twelve bytes, the JoinEUI's last byte
      first, and the DevNonce recoverable little-endian from bytes 9 and 10. */
  lemma MicHeader11Layout(joinReqType: bv8, joinEui: seq<bv8>, devNonce: bv16)
    requires |joinEui| >= LORAMAC_JOIN_EUI_FIELD_SIZE
    ensures var h := MicHeader11(joinReqType, joinEui, devNonce);
      && |h| == JOIN_ACCEPT_MIC_COMPUTATION_OFFSET
      && h[0] == joinReqType
      && (forall i :: 0 <= i < LORAMAC_JOIN_EUI_FIELD_SIZE ==> h[1..9][i] == joinEui[7 - i])
      && ((h[10] as bv16) << 8) | (h[9] as bv16) == devNonce
      && h[11] == JOIN_ACCEPT_MHDR
  {
    var h := MicHeader11(joinReqType, joinEui, devNonce);
    var eui := joinEui[..LORAMAC_JOIN_EUI_FIELD_SIZE];
    forall i | 0 <= i < LORAMAC_JOIN_EUI_FIELD_SIZE
      ensures h[1..9][i] == joinEui[7 - i]
    {
      ReverseAt(eui, i);
    }
  }

  /** Builds micHeader11 as SecureElementProcessJoinAccept does: a zeroed
      buffer filled through the bufItr cursor. */
  method BuildMicHeader11(joinReqType: bv8, joinEui: seq<bv8>, devNonce: bv16) returns (header: seq<bv8>)
    requires |joinEui| >= LORAMAC_JOIN_EUI_FIELD_SIZE
    ensures header == MicHeader11(joinReqType, joinEui, devNonce)
    ensures |header| == JOIN_ACCEPT_MIC_COMPUTATION_OFFSET
  {
    var micHeader11 := new bv8[JOIN_ACCEPT_MIC_COMPUTATION_OFFSET](_ => 0);
    var bufItr := 0;
    micHeader11[bufItr] := joinReqType;
    bufItr := bufItr + 1;
    ghost var before := micHeader11[..];
    Memcpyr(micHeader11, bufItr, joinEui, LORAMAC_JOIN_EUI_FIELD_SIZE);
    OverlayParts(before, 1, Reverse(joinEui[..LORAMAC_JOIN_EUI_FIELD_SIZE]));
    ghost var eui := micHeader11[1..9];
    bufItr := bufItr + LORAMAC_JOIN_EUI_FIELD_SIZE;
    micHeader11[bufItr] := (devNonce & 0xFF) as bv8;
    bufItr := bufItr + 1;
    micHeader11[bufItr] := ((devNonce >> 8) & 0xFF) as bv8;
    bufItr := bufItr + 1;
    micHeader11[bufItr] := JOIN_ACCEPT_MHDR;
    header := micHeader11[..];
    assert header[1..9] == eui == Reverse(joinEui[..LORAMAC_JOIN_EUI_FIELD_SIZE]);
    assert header == [joinReqType] + header[1..9] + header[9..];
  }

  /** The two output buffers of SecureElementProcessJoinAccept: the decrypted
      join-accept and the minor version byte. */
  datatype Buffers = Buffers(dec: seq<bv8>, versionMinor: bv8)

  /** What one request leaves in the output buffers: the LR1110 writes the
      decrypted bytes from offset 1, and only when it reports SUCCESS is the
      OptNeg bit of the decrypted DLSettings copied to the version byte. */
  function Apply(b: Buffers, t: Trial): (r: Buffers)
    requires |b.dec| > DL_SETTINGS_OFFSET && 1 + |t.plain| <= |b.dec|
    ensures |r.dec| == |b.dec|
  {
    var dec := Overlay(b.dec, 1, t.plain);
    Buffers(dec, if t.status == Success then VersionMinorOf(dec[DL_SETTINGS_OFFSET]) else b.versionMinor)
  }

  /** One request writes its decrypted bytes from offset 1 and leaves the
      MHDR byte and the tail alone; the version byte becomes 0 or 1 as the
      OptNeg bit of the new DLSettings says when the request succeeded, and
      stays as it was when it failed. */
  lemma ApplyEffect(b: Buffers, t: Trial)
    requires |b.dec| > DL_SETTINGS_OFFSET && 1 + |t.plain| <= |b.dec|
    ensures var r := Apply(b, t);
      && r.dec[0] == b.dec[0]
      && r.dec[1..1 + |t.plain|] == t.plain
      && r.dec[1 + |t.plain|..] == b.dec[1 + |t.plain|..]
      && (t.status != Success ==> r.versionMinor == b.versionMinor)
      && (t.status == Success ==> r.versionMinor <= 1
                                  && (r.versionMinor == 1 <==> r.dec[DL_SETTINGS_OFFSET] & 0x80 == 0x80))
  {
    OverlayParts(b.dec, 1, t.plain);
    assert Apply(b, t).dec[0] == Apply(b, t).dec[..1][0];
  }

  /** What one call of SecureElementProcessJoinAccept leaves behind once its
      argument checks have passed. */
  datatype Outcome = Outcome(status: SeStatus, calls: seq<Command>, buffers: Buffers)

  /** The first request: 1.0.x scheme, NwkKey for the MIC, version 0. */
  function Trial1Request(joinReqType: bv8, frame: seq<bv8>, encSize: nat): Command {
    CryptoProcessJoinAccept(SlotFor(EncKeyFor(joinReqType)), SlotFor(NwkKey), 0, MicHeader10,
                            frame, encSize - 1)
  }

  /** The second request: 1.1.x scheme, JSIntKey for the MIC, version 1. */
  function Trial2Request(joinReqType: bv8, joinEui: seq<bv8>, devNonce: bv16,
                         frame: seq<bv8>, encSize: nat): Command
    requires |joinEui| >= LORAMAC_JOIN_EUI_FIELD_SIZE
  {
    CryptoProcessJoinAccept(SlotFor(EncKeyFor(joinReqType)), SlotFor(JSIntKey), 1,
                            MicHeader11(joinReqType, joinEui, devNonce), frame, encSize - 1)
  }

  /** Whether the first request is accepted at once as LoRaWAN 1.0.x: it
      succeeded and the decrypted OptNeg bit is clear. */
  predicate LegacyConsistent(dec0: seq<bv8>, trial1: Trial)
    requires |dec0| > DL_SETTINGS_OFFSET && 1 + |trial1.plain| <= |dec0|
  {
    trial1.status == Success && VersionMinorOf(Overlay(dec0, 1, trial1.plain)[DL_SETTINGS_OFFSET]) == 0
  }

  /** The protocol on values: `b0` holds the output buffers before the call,
      `trial1` and `trial2` the LR1110's answers to the two requests, `use11`
      the USE_LRWAN_1_1_X_CRYPTO switch. */
  function Run(use11: bool, joinReqType: bv8, joinEui: seq<bv8>, devNonce: bv16,
               frame: seq<bv8>, encSize: nat, b0: Buffers, trial1: Trial, trial2: Trial): Outcome
    requires use11 ==> |joinEui| >= LORAMAC_JOIN_EUI_FIELD_SIZE
    requires |b0.dec| > DL_SETTINGS_OFFSET
    requires 1 + |trial1.plain| <= |b0.dec| && 1 + |trial2.plain| <= |b0.dec|
  {
    var call1 := Trial1Request(joinReqType, frame, encSize);
    var b1 := Apply(b0, trial1);
    if trial1.status == Success && b1.versionMinor == 0 then
      Outcome(Success, [call1], b1)
    else if !use11 then
      Outcome(trial1.status, [call1], b1)
    else
      var call2 := Trial2Request(joinReqType, joinEui, devNonce, frame, encSize);
      var b2 := Apply(b1, trial2);
      Outcome(if trial2.status == Success && b2.versionMinor == 1 then Success else trial2.status,
              [call1, call2], b2)
  }

  /** SecureElementProcessJoinAccept. A NULL frame, output buffer or version
      output gives ERROR_NPE and an oversized frame ERROR_BUF_SIZE, both before
      any LR1110 request and with the outputs untouched; otherwise the
      requests, the result and the outputs are those of Run. */
  method ProcessJoinAccept(chip: Lr1110, use11: bool, joinReqType: bv8, joinEui: seq<bv8>,
                           devNonce: bv16, encJoinAccept: Option<seq<bv8>>, encJoinAcceptSize: nat,
                           decJoinAccept: array?<bv8>, versionMinor: array?<bv8>,
                           trial1: Trial, trial2: Trial)
    returns (status: SeStatus)
    requires encJoinAcceptSize <= UINT8_MAX
    requires use11 ==> |joinEui| >= LORAMAC_JOIN_EUI_FIELD_SIZE
    requires decJoinAccept != null ==>
               && decJoinAccept.Length > DL_SETTINGS_OFFSET
               && 1 + |trial1.plain| <= decJoinAccept.Length
               && 1 + |trial2.plain| <= decJoinAccept.Length
    requires versionMinor != null ==> versionMinor.Length == 1
    requires decJoinAccept == null || decJoinAccept != versionMinor
    modifies chip, decJoinAccept, versionMinor
    ensures encJoinAccept.None? || decJoinAccept == null || versionMinor == null ==>
              && status == ErrorNpe && chip.log == old(chip.log)
              && (decJoinAccept != null ==> decJoinAccept[..] == old(decJoinAccept[..]))
              && (versionMinor != null ==> versionMinor[..] == old(versionMinor[..]))
    ensures encJoinAccept.Some? && decJoinAccept != null && versionMinor != null
            && encJoinAcceptSize > LORAMAC_JOIN_ACCEPT_FRAME_MAX_SIZE ==>
              && status == ErrorBufSize && chip.log == old(chip.log)
              && decJoinAccept[..] == old(decJoinAccept[..])
              && versionMinor[..] == old(versionMinor[..])
    ensures encJoinAccept.Some? && decJoinAccept != null && versionMinor != null
            && encJoinAcceptSize <= LORAMAC_JOIN_ACCEPT_FRAME_MAX_SIZE ==>
              var o := Run(use11, joinReqType, joinEui, devNonce, encJoinAccept.value, encJoinAcceptSize,
                           Buffers(old(decJoinAccept[..]), old(versionMinor[0])), trial1, trial2);
              && status == o.status
              && chip.log == old(chip.log) + o.calls
              && Buffers(decJoinAccept[..], versionMinor[0]) == o.buffers
  {
    if encJoinAccept.None? || decJoinAccept == null || versionMinor == null {
      return ErrorNpe;
    }
    if encJoinAcceptSize > LORAMAC_JOIN_ACCEPT_FRAME_MAX_SIZE {
      return ErrorBufSize;
    }
    status := Decrypt(chip, use11, joinReqType, joinEui, devNonce, encJoinAccept.value, encJoinAcceptSize,
                      decJoinAccept, versionMinor, trial1, trial2);
  }

  /** SecureElementProcessJoinAccept once its argument checks have passed:
      the requests, with the outcome given by Run. */
  method Decrypt(chip: Lr1110, use11: bool, joinReqType: bv8, joinEui: seq<bv8>, devNonce: bv16,
                 frame: seq<bv8>, encJoinAcceptSize: nat, decJoinAccept: array<bv8>, versionMinor: array<bv8>,
                 trial1: Trial, trial2: Trial)
    returns (status: SeStatus)
    requires use11 ==> |joinEui| >= LORAMAC_JOIN_EUI_FIELD_SIZE
    requires decJoinAccept.Length > DL_SETTINGS_OFFSET
    requires 1 + |trial1.plain| <= decJoinAccept.Length && 1 + |trial2.plain| <= decJoinAccept.Length
    requires versionMinor.Length == 1 && decJoinAccept != versionMinor
    modifies chip, decJoinAccept, versionMinor
    ensures var o := Run(use11, joinReqType, joinEui, devNonce, frame, encJoinAcceptSize,
                         Buffers(old(decJoinAccept[..]), old(versionMinor[0])), trial1, trial2);
      && status == o.status
      && chip.log == old(chip.log) + o.calls
      && Buffers(decJoinAccept[..], versionMinor[0]) == o.buffers
  {
    var encKeyId := NwkKey;
    if joinReqType != JOIN_REQ {
      encKeyId := JSEncKey;
    }
    var decSlot := SlotFor(encKeyId);
    assert decSlot == SlotFor(EncKeyFor(joinReqType));

    status := RunTrial(chip, decSlot, SlotFor(NwkKey), 0, MicHeader10,
                       frame, encJoinAcceptSize - 1, decJoinAccept, versionMinor, trial1);
    if status == Success && versionMinor[0] == 0 {
      return Success;
    }
    if !use11 {
      return;
    }

    status := CurrentSchemeTrial(chip, decSlot, joinReqType, joinEui, devNonce, frame, encJoinAcceptSize,
                                 decJoinAccept, versionMinor, trial2);
    if status == Success && versionMinor[0] == 1 {
      return Success;
    }
  }

  /** The 1.1.x request of SecureElementProcessJoinAccept: the MIC header is
      built and the LR1110 processes the frame under JSIntKey, version 1. */
  method CurrentSchemeTrial(chip: Lr1110, decSlot: Slot, joinReqType: bv8, joinEui: seq<bv8>, devNonce: bv16,
                            frame: seq<bv8>, encJoinAcceptSize: nat,
                            decJoinAccept: array<bv8>, versionMinor: array<bv8>, reply: Trial)
    returns (status: SeStatus)
    requires |joinEui| >= LORAMAC_JOIN_EUI_FIELD_SIZE
    requires decJoinAccept.Length > DL_SETTINGS_OFFSET && 1 + |reply.plain| <= decJoinAccept.Length
    requires versionMinor.Length == 1 && decJoinAccept != versionMinor
    modifies chip, decJoinAccept, versionMinor
    ensures chip.log == old(chip.log) + [CryptoProcessJoinAccept(decSlot, SlotFor(JSIntKey), 1,
                                                                 MicHeader11(joinReqType, joinEui, devNonce),
                                                                 frame, encJoinAcceptSize - 1)]
    ensures status == reply.status
    ensures Buffers(decJoinAccept[..], versionMinor[0])
            == Apply(Buffers(old(decJoinAccept[..]), old(versionMinor[0])), reply)
  {
    var micHeader11 := BuildMicHeader11(joinReqType, joinEui, devNonce);
    status := RunTrial(chip, decSlot, SlotFor(JSIntKey), 1, micHeader11,
                       frame, encJoinAcceptSize - 1, decJoinAccept, versionMinor, reply);
  }

  /** One request of SecureElementProcessJoinAccept: the LR1110 processes the
      frame, and the output buffers change as Apply says. */
  method RunTrial(chip: Lr1110, decSlot: Slot, intSlot: Slot, version: nat, header: seq<bv8>,
                  frame: seq<bv8>, length: int, decJoinAccept: array<bv8>, versionMinor: array<bv8>,
                  reply: Trial)
    returns (status: SeStatus)
    requires decJoinAccept.Length > DL_SETTINGS_OFFSET && 1 + |reply.plain| <= decJoinAccept.Length
    requires versionMinor.Length == 1 && decJoinAccept != versionMinor
    modifies chip, decJoinAccept, versionMinor
    ensures chip.log == old(chip.log) + [CryptoProcessJoinAccept(decSlot, intSlot, version, header, frame, length)]
    ensures status == reply.status
    ensures Buffers(decJoinAccept[..], versionMinor[0])
            == Apply(Buffers(old(decJoinAccept[..]), old(versionMinor[0])), reply)
  {
    status := chip.ProcessJoinAccept(decSlot, intSlot, version, header, frame, length, decJoinAccept, reply);
    if status == Success {
      versionMinor[0] := VersionMinorOf(decJoinAccept[DL_SETTINGS_OFFSET]);
    }
  }

  /** A frame consistent under 1.0.x is accepted after exactly one request,
      with minor version 0. */
  lemma LegacyConsistentAcceptedAtOnce(use11: bool, joinReqType: bv8, joinEui: seq<bv8>, devNonce: bv16,
                                       frame: seq<bv8>, encSize: nat, b0: Buffers,
                                       trial1: Trial, trial2: Trial)
    requires use11 ==> |joinEui| >= LORAMAC_JOIN_EUI_FIELD_SIZE
    requires |b0.dec| > DL_SETTINGS_OFFSET
    requires 1 + |trial1.plain| <= |b0.dec| && 1 + |trial2.plain| <= |b0.dec|
    requires LegacyConsistent(b0.dec, trial1)
    ensures var o := Run(use11, joinReqType, joinEui, devNonce, frame, encSize, b0, trial1, trial2);
      o.status == Success && o.calls == [Trial1Request(joinReqType, frame, encSize)] && o.buffers.versionMinor == 0
  {
  }

  /** Otherwise, with 1.1.x crypto built in, the 1.1.x request follows the
      1.0.x one and the result is the status of the second request. */
  lemma CurrentSchemeFollows(joinReqType: bv8, joinEui: seq<bv8>, devNonce: bv16,
                             frame: seq<bv8>, encSize: nat, b0: Buffers,
                             trial1: Trial, trial2: Trial)
    requires |joinEui| >= LORAMAC_JOIN_EUI_FIELD_SIZE
    requires |b0.dec| > DL_SETTINGS_OFFSET
    requires 1 + |trial1.plain| <= |b0.dec| && 1 + |trial2.plain| <= |b0.dec|
    requires !LegacyConsistent(b0.dec, trial1)
    ensures var o := Run(true, joinReqType, joinEui, devNonce, frame, encSize, b0, trial1, trial2);
      && o.calls == [Trial1Request(joinReqType, frame, encSize),
                     Trial2Request(joinReqType, joinEui, devNonce, frame, encSize)]
      && o.status == trial2.status
  {
  }

  /** Without 1.1.x crypto there is one request and its status is the result,
      so a 1.0.x trial that succeeds with the OptNeg bit set still reports
      SUCCESS, with minor version 1. */
  lemma LegacyOnlyBuild(joinReqType: bv8, joinEui: seq<bv8>, devNonce: bv16,
                        frame: seq<bv8>, encSize: nat, b0: Buffers,
                        trial1: Trial, trial2: Trial)
    requires |b0.dec| > DL_SETTINGS_OFFSET
    requires 1 + |trial1.plain| <= |b0.dec| && 1 + |trial2.plain| <= |b0.dec|
    ensures var o := Run(false, joinReqType, joinEui, devNonce, frame, encSize, b0, trial1, trial2);
      && o.calls == [Trial1Request(joinReqType, frame, encSize)]
      && o.status == trial1.status
      && (trial1.status == Success ==>
            o.buffers.versionMinor == VersionMinorOf(Overlay(b0.dec, 1, trial1.plain)[DL_SETTINGS_OFFSET]))
  {
  }

  /** A frame consistent only under 1.1.x is accepted on the second request
      with minor version 1. */
  lemma CurrentConsistentAccepted(joinReqType: bv8, joinEui: seq<bv8>, devNonce: bv16,
                                  frame: seq<bv8>, encSize: nat, b0: Buffers,
                                  trial1: Trial, trial2: Trial)
    requires |joinEui| >= LORAMAC_JOIN_EUI_FIELD_SIZE
    requires |b0.dec| > DL_SETTINGS_OFFSET
    requires 1 + |trial1.plain| <= |b0.dec| && 1 + |trial2.plain| <= |b0.dec|
    requires !LegacyConsistent(b0.dec, trial1)
    requires trial2.status == Success
    requires VersionMinorOf(Overlay(Overlay(b0.dec, 1, trial1.plain), 1, trial2.plain)[DL_SETTINGS_OFFSET]) == 1
    ensures var o := Run(true, joinReqType, joinEui, devNonce, frame, encSize, b0, trial1, trial2);
      o.status == Success && o.buffers.versionMinor == 1 && |o.calls| == 2
  {
  }

  /** A 1.1.x trial that succeeds but reads the OptNeg bit clear still
      reports SUCCESS, with minor version 0: the status of the last trial is
      returned as it is. */
  lemma InconsistentCurrentStillSucceeds(joinReqType: bv8, joinEui: seq<bv8>, devNonce: bv16,
                                         frame: seq<bv8>, encSize: nat, b0: Buffers,
                                         trial1: Trial, trial2: Trial)
    requires |joinEui| >= LORAMAC_JOIN_EUI_FIELD_SIZE
    requires |b0.dec| > DL_SETTINGS_OFFSET
    requires 1 + |trial1.plain| <= |b0.dec| && 1 + |trial2.plain| <= |b0.dec|
    requires !LegacyConsistent(b0.dec, trial1)
    requires trial2.status == Success
    requires VersionMinorOf(Overlay(Overlay(b0.dec, 1, trial1.plain), 1, trial2.plain)[DL_SETTINGS_OFFSET]) == 0
    ensures var o := Run(true, joinReqType, joinEui, devNonce, frame, encSize, b0, trial1, trial2);
      o.status == Success && o.buffers.versionMinor == 0
  {
  }

  /** The version output changes only through a successful request, and
      SUCCESS is reported only when some request succeeded. */
  lemma VersionMinorOnlyOnSuccess(use11: bool, joinReqType: bv8, joinEui: seq<bv8>, devNonce: bv16,
                                  frame: seq<bv8>, encSize: nat, b0: Buffers,
                                  trial1: Trial, trial2: Trial)
    requires use11 ==> |joinEui| >= LORAMAC_JOIN_EUI_FIELD_SIZE
    requires |b0.dec| > DL_SETTINGS_OFFSET
    requires 1 + |trial1.plain| <= |b0.dec| && 1 + |trial2.plain| <= |b0.dec|
    ensures var o := Run(use11, joinReqType, joinEui, devNonce, frame, encSize, b0, trial1, trial2);
      && (trial1.status != Success && (!use11 || trial2.status != Success) ==> o.buffers.versionMinor == b0.versionMinor)
      && (o.status == Success ==> trial1.status == Success || (use11 && trial2.status == Success))
  {
  }

  /** Every request decrypts with the key chosen by the join-request type. */
  lemma DecryptionKeyOfEveryRequest(use11: bool, joinReqType: bv8, joinEui: seq<bv8>, devNonce: bv16,
                                    frame: seq<bv8>, encSize: nat, b0: Buffers,
                                    trial1: Trial, trial2: Trial)
    requires use11 ==> |joinEui| >= LORAMAC_JOIN_EUI_FIELD_SIZE
    requires |b0.dec| > DL_SETTINGS_OFFSET
    requires 1 + |trial1.plain| <= |b0.dec| && 1 + |trial2.plain| <= |b0.dec|
    ensures var o := Run(use11, joinReqType, joinEui, devNonce, frame, encSize, b0, trial1, trial2);
      forall c | c in o.calls :: c.CryptoProcessJoinAccept? && c.decSlot == SlotFor(EncKeyFor(joinReqType))
  {
  }
}
