/** The identity store: the non-volatile record (SeContext) holding DevEUI,
    JoinEUI and the LR1110 PIN, its setters and getters, its export and
    restore, and the change notification fired on every setter. */
module Identity {
  import opened Bytes
  import opened Coprocessor

  /** SE_EUI_SIZE and SE_PIN_SIZE. */
  const SE_EUI_SIZE: nat := 8
  const SE_PIN_SIZE: nat := 4

  /** sizeof(SeContext): three byte arrays laid out back to back, no padding. */
  const NVM_CTX_SIZE: nat := SE_EUI_SIZE + SE_EUI_SIZE + SE_PIN_SIZE

  /** What SeNvmCtxChanged points to: nothing before initialisation, the
      caller's callback, or DummyCB when the caller passed none. */
  datatype Callback = Unset | UserCallback | DummyCallback

  /** The persisted record as a value: the three fields read off a blob laid
      out as SeContext is. */
  function DevEuiOf(blob: seq<bv8>): (r: seq<bv8>)
    requires |blob| >= NVM_CTX_SIZE
    ensures |r| == SE_EUI_SIZE
  {
    blob[0..SE_EUI_SIZE]
  }

  function JoinEuiOf(blob: seq<bv8>): (r: seq<bv8>)
    requires |blob| >= NVM_CTX_SIZE
    ensures |r| == SE_EUI_SIZE
  {
    blob[SE_EUI_SIZE..2 * SE_EUI_SIZE]
  }

  function PinOf(blob: seq<bv8>): (r: seq<bv8>)
    requires |blob| >= NVM_CTX_SIZE
    ensures |r| == SE_PIN_SIZE
  {
    blob[2 * SE_EUI_SIZE..NVM_CTX_SIZE]
  }

  /** The byte layout of SeContext: DevEui, then JoinEui, then Pin. */
  function Layout(devEui: seq<bv8>, joinEui: seq<bv8>, pin: seq<bv8>): (blob: seq<bv8>)
    requires |devEui| == SE_EUI_SIZE && |joinEui| == SE_EUI_SIZE && |pin| == SE_PIN_SIZE
    ensures |blob| == NVM_CTX_SIZE
    ensures DevEuiOf(blob) == devEui && JoinEuiOf(blob) == joinEui && PinOf(blob) == pin
  {
    devEui + joinEui + pin
  }

  /** Reading the three fields off a blob and laying them out again gives the
      blob's record bytes back. */
  lemma LayoutOfFields(blob: seq<bv8>)
    requires |blob| >= NVM_CTX_SIZE
    ensures Layout(DevEuiOf(blob), JoinEuiOf(blob), PinOf(blob)) == blob[..NVM_CTX_SIZE]
  {
    assert blob[..NVM_CTX_SIZE] == blob[0..8] + blob[8..16] + blob[16..20];
  }

  /** SeContext with the callback pointer SeNvmCtxChanged beside it. */
  class IdentityStore {
    const devEui: array<bv8>
    const joinEui: array<bv8>
    const pin: array<bv8>
    var callback: Callback
    /** How many times SeNvmCtxChanged has been invoked. */
    ghost var changeEvents: nat

    ghost predicate Valid() {
      && devEui.Length == SE_EUI_SIZE
      && joinEui.Length == SE_EUI_SIZE
      && pin.Length == SE_PIN_SIZE
      && devEui != joinEui && devEui != pin && joinEui != pin
    }

    /** The record as it would be persisted. */
    function Record(): (blob: seq<bv8>)
      requires Valid()
      reads devEui, joinEui, pin
      ensures |blob| == NVM_CTX_SIZE
    {
      Layout(devEui[..], joinEui[..], pin[..])
    }

    /** The static initialiser of SeContext, from the compiled-in defaults
        (LORAWAN_DEVICE_EUI, LORAWAN_JOIN_EUI, SECURE_ELEMENT_PIN). */
    constructor (defaultDevEui: seq<bv8>, defaultJoinEui: seq<bv8>, defaultPin: seq<bv8>)
      requires |defaultDevEui| == SE_EUI_SIZE && |defaultJoinEui| == SE_EUI_SIZE
      requires |defaultPin| == SE_PIN_SIZE
      ensures Valid() && fresh(devEui) && fresh(joinEui) && fresh(pin)
      ensures devEui[..] == defaultDevEui && joinEui[..] == defaultJoinEui && pin[..] == defaultPin
      ensures callback == Unset && changeEvents == 0
    {
      devEui := new bv8[SE_EUI_SIZE](i requires 0 <= i < SE_EUI_SIZE => defaultDevEui[i]);
      joinEui := new bv8[SE_EUI_SIZE](i requires 0 <= i < SE_EUI_SIZE => defaultJoinEui[i]);
      pin := new bv8[SE_PIN_SIZE](i requires 0 <= i < SE_PIN_SIZE => defaultPin[i]);
      callback := Unset;
      changeEvents := 0;
    }

    /** SecureElementInit: installs the callback (DummyCB when none is given),
        restores the LR1110 crypto context from flash, then either reads the
        pre-provisioned identity from the LR1110 or, unless the DevEUI is
        static, takes the DevEUI from the unique id; finally fires the
        callback once. The result is the restore status. */
    method Init(chip: Lr1110, hal: SeHal, hasCallback: bool,
                preProvisioned: bool, staticDevEui: bool,
                restoreReply: SeStatus, chipUid: seq<bv8>, chipJoinEui: seq<bv8>, chipPin: seq<bv8>,
                uniqueId: seq<bv8>)
      returns (status: SeStatus)
      requires Valid()
      requires |chipUid| == SE_EUI_SIZE && |chipJoinEui| == SE_EUI_SIZE && |chipPin| == SE_PIN_SIZE
      requires |uniqueId| == SE_EUI_SIZE
      modifies this, devEui, joinEui, pin, chip, hal
      ensures Valid()
      ensures callback == if hasCallback then UserCallback else DummyCallback
      ensures changeEvents == old(changeEvents) + 1
      ensures status == restoreReply
      ensures chip.log == old(chip.log) + [CryptoRestoreFromFlash]
                          + (if preProvisioned then [SystemReadUid, SystemReadJoinEui, SystemReadPin] else [])
      ensures hal.calls == old(hal.calls) + (if !preProvisioned && !staticDevEui then [HalGetUniqueId] else [])
      ensures devEui[..] == if preProvisioned then chipUid
                            else if !staticDevEui then uniqueId
                            else old(devEui[..])
      ensures joinEui[..] == if preProvisioned then chipJoinEui else old(joinEui[..])
      ensures pin[..] == if preProvisioned then chipPin else old(pin[..])
    {
      if hasCallback {
        callback := UserCallback;
      } else {
        callback := DummyCallback;
      }
      status := chip.RestoreFromFlash(restoreReply);
      if preProvisioned {
        chip.ReadUid(devEui, chipUid);
        chip.ReadJoinEui(joinEui, chipJoinEui);
        chip.ReadPin(pin, chipPin);
      } else if !staticDevEui {
        hal.GetUniqueId(devEui, uniqueId);
      }
      changeEvents := changeEvents + 1;
    }

    /** SecureElementRestoreNvmCtx: a NULL context is refused and nothing
        happens; otherwise the LR1110 crypto context is restored from flash and
        the whole record is overwritten with the first NVM_CTX_SIZE bytes of
        the context. The result is the restore status. No notification. */
    method RestoreNvmCtx(chip: Lr1110, seNvmCtx: Option<seq<bv8>>, restoreReply: SeStatus)
      returns (status: SeStatus)
      requires Valid()
      requires seNvmCtx.Some? ==> |seNvmCtx.value| >= NVM_CTX_SIZE
      modifies devEui, joinEui, pin, chip
      ensures Valid()
      ensures seNvmCtx.None? ==>
                status == ErrorNpe && chip.log == old(chip.log) && Record() == old(Record())
      ensures seNvmCtx.Some? ==>
                && status == restoreReply
                && chip.log == old(chip.log) + [CryptoRestoreFromFlash]
                && Record() == seNvmCtx.value[..NVM_CTX_SIZE]
    {
      if seNvmCtx.None? {
        return ErrorNpe;
      }
      status := chip.RestoreFromFlash(restoreReply);
      var blob := seNvmCtx.value;
      Memcpy1(devEui, 0, DevEuiOf(blob), SE_EUI_SIZE);
      Memcpy1(joinEui, 0, JoinEuiOf(blob), SE_EUI_SIZE);
      Memcpy1(pin, 0, PinOf(blob), SE_PIN_SIZE);
      LayoutOfFields(blob);
    }

    /** SecureElementGetNvmCtx: the record and its size, sizeof(SeContext). */
    method GetNvmCtx() returns (seNvmCtx: seq<bv8>, seNvmCtxSize: nat)
      requires Valid()
      ensures seNvmCtx == Record()
      ensures seNvmCtxSize == NVM_CTX_SIZE == |seNvmCtx|
      ensures DevEuiOf(seNvmCtx) == devEui[..] && JoinEuiOf(seNvmCtx) == joinEui[..]
      ensures PinOf(seNvmCtx) == pin[..]
    {
      seNvmCtxSize := NVM_CTX_SIZE;
      seNvmCtx := Record();
    }

    /** SecureElementSetDevEui: NULL is refused with nothing changed and no
        notification; otherwise DevEui becomes the first SE_EUI_SIZE input
        bytes, the other fields stay and the callback fires once. */
    method SetDevEui(input: Option<seq<bv8>>) returns (status: SeStatus)
      requires Valid() && (input.Some? ==> callback != Unset)
      requires input.Some? ==> |input.value| >= SE_EUI_SIZE
      modifies this`changeEvents, devEui
      ensures Valid()
      ensures input.None? ==>
                status == ErrorNpe && Record() == old(Record()) && changeEvents == old(changeEvents)
      ensures input.Some? ==>
                && status == Success
                && devEui[..] == input.value[..SE_EUI_SIZE]
                && joinEui[..] == old(joinEui[..]) && pin[..] == old(pin[..])
                && changeEvents == old(changeEvents) + 1
    {
      if input.None? {
        return ErrorNpe;
      }
      Memcpy1(devEui, 0, input.value, SE_EUI_SIZE);
      changeEvents := changeEvents + 1;
      status := Success;
    }

    /** SecureElementGetDevEui: the live DevEui storage itself. */
    method GetDevEui() returns (r: array<bv8>)
      requires Valid()
      ensures r == devEui && r.Length == SE_EUI_SIZE
    {
      r := devEui;
    }

    /** SecureElementSetJoinEui, as SetDevEui for the JoinEui field. */
    method SetJoinEui(input: Option<seq<bv8>>) returns (status: SeStatus)
      requires Valid() && (input.Some? ==> callback != Unset)
      requires input.Some? ==> |input.value| >= SE_EUI_SIZE
      modifies this`changeEvents, joinEui
      ensures Valid()
      ensures input.None? ==>
                status == ErrorNpe && Record() == old(Record()) && changeEvents == old(changeEvents)
      ensures input.Some? ==>
                && status == Success
                && joinEui[..] == input.value[..SE_EUI_SIZE]
                && devEui[..] == old(devEui[..]) && pin[..] == old(pin[..])
                && changeEvents == old(changeEvents) + 1
    {
      if input.None? {
        return ErrorNpe;
      }
      Memcpy1(joinEui, 0, input.value, SE_EUI_SIZE);
      changeEvents := changeEvents + 1;
      status := Success;
    }

    /** SecureElementGetJoinEui: the live JoinEui storage itself. */
    method GetJoinEui() returns (r: array<bv8>)
      requires Valid()
      ensures r == joinEui && r.Length == SE_EUI_SIZE
    {
      r := joinEui;
    }

    /** SecureElementSetPin, as SetDevEui for the Pin field. */
    method SetPin(input: Option<seq<bv8>>) returns (status: SeStatus)
      requires Valid() && (input.Some? ==> callback != Unset)
      requires input.Some? ==> |input.value| >= SE_PIN_SIZE
      modifies this`changeEvents, pin
      ensures Valid()
      ensures input.None? ==>
                status == ErrorNpe && Record() == old(Record()) && changeEvents == old(changeEvents)
      ensures input.Some? ==>
                && status == Success
                && pin[..] == input.value[..SE_PIN_SIZE]
                && devEui[..] == old(devEui[..]) && joinEui[..] == old(joinEui[..])
                && changeEvents == old(changeEvents) + 1
    {
      if input.None? {
        return ErrorNpe;
      }
      Memcpy1(pin, 0, input.value, SE_PIN_SIZE);
      changeEvents := changeEvents + 1;
      status := Success;
    }

    /** SecureElementGetPin: the live Pin storage itself. */
    method GetPin() returns (r: array<bv8>)
      requires Valid()
      ensures r == pin && r.Length == SE_PIN_SIZE
    {
      r := pin;
    }
  }

  /** Exporting the record and restoring from the export leaves the record as
      it was, and reports the LR1110's restore status. */
  method ExportThenRestore(store: IdentityStore, chip: Lr1110, restoreReply: SeStatus)
    returns (status: SeStatus)
    requires store.Valid()
    modifies store.devEui, store.joinEui, store.pin, chip
    ensures store.Record() == old(store.Record())
    ensures status == restoreReply
  {
    var blob, size := store.GetNvmCtx();
    status := store.RestoreNvmCtx(chip, Some(blob), restoreReply);
    assert blob == old(store.Record());
  }

  /** After a successful set, each getter returns storage holding exactly the
      bytes just written. */
  method SetThenGet(store: IdentityStore, devEui: seq<bv8>, joinEui: seq<bv8>, pin: seq<bv8>)
    returns (gotDevEui: seq<bv8>, gotJoinEui: seq<bv8>, gotPin: seq<bv8>)
    requires store.Valid() && store.callback != Unset
    requires |devEui| == SE_EUI_SIZE && |joinEui| == SE_EUI_SIZE && |pin| == SE_PIN_SIZE
    modifies store`changeEvents, store.devEui, store.joinEui, store.pin
    ensures gotDevEui == devEui && gotJoinEui == joinEui && gotPin == pin
    ensures store.changeEvents == old(store.changeEvents) + 3
  {
    var s1 := store.SetDevEui(Some(devEui));
    var s2 := store.SetJoinEui(Some(joinEui));
    var s3 := store.SetPin(Some(pin));
    var a := store.GetDevEui();
    var b := store.GetJoinEui();
    var c := store.GetPin();
    gotDevEui, gotJoinEui, gotPin := a[..], b[..], c[..];
  }
}
