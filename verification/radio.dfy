/**
  The radio transceiver port: the transmit and receive command chains (synthesiser step
  then data step), channel and power programming, the frame buffers, and the two completion
  handlers that timestamp frame boundaries for the MAC.

  The vendor RF driver is not modelled: what it returns (the handle of a posted chain or
  the allocation error, the status of the data command, the event mask of a callback, the
  counter reading) arrives as method parameters, and the calls the port makes on it are
  recorded in a ghost log. The MAC's start-of-frame and end-of-frame callbacks are recorded
  in a second ghost log.
*/
module Radio {
  import opened PortTypes

  // ---------------------------------------------------------------------------
  // Constants
  // ---------------------------------------------------------------------------

  /**
    The largest PSDU the port accepts. The interface header defining it is not part of this
    model; 127 is assumed (the IEEE 802.15.4 maximum packet size).
  */
  const MaxPsduLength: nat := 127

  /** Payload plus length byte and RSSI byte, plus six spare bytes. */
  const TxBufferLength: nat := MaxPsduLength + 2 + 6
  const RxBufferLength: nat := MaxPsduLength + 2 + 6

  /** Timing corrections, in microseconds. */
  const TxStartCorrection: nat := 550
  const TxEndCorrection: nat := 330
  const RxStartCorrection: nat := 1620

  /** The band: 69 channels of 100 kHz from 863.1 MHz. */
  const BandStartFrequency: nat := 863100
  const BandChannelCount: nat := 69
  const ChannelWidth: nat := 100
  const KhzToHzRatio: nat := 1000

  /** The power-table lookup's sentinels for "lowest" and "highest" power. */
  const RfTxPowerTableMinDbm: Int8 := -128
  const RfTxPowerTableMaxDbm: Int8 := 126

  /** A command handle of the RF driver; RfAllocError marks "no command". */
  type CmdHandle = int
  const RfAllocError: CmdHandle := -2

  // ---------------------------------------------------------------------------
  // Values exchanged with the MAC and the driver
  // ---------------------------------------------------------------------------

  datatype Status = Success | GeneralError | WrongState

  /** The bits of a driver event mask that the handlers test. */
  datatype RfEvent = CmdDone | LastCmdDone | MdmSoft | RxOk | RxNOk | OtherEvent(bit: nat)

  /** The status the radio core leaves in a data command. */
  datatype CmdStatus = PropDoneOk | PropDoneRxErr | DoneOk | OtherStatus(code: nat)

  /** The status of the receive data entry. */
  datatype EntryStatus = EntryPending | EntryFinished

  /** What GetReceivedFrame reports. */
  datatype RxInfo = RxInfo(crcValid: bool, lqi: int, mpduLength: nat, rssi: Int8)

  /** The setting of a frequency-synthesiser command: whole MHz and fraction of a MHz in 1/65536. */
  datatype FsSetting = FsSetting(frequency: Uint16, fractFreq: Uint16)

  /** A callback into the MAC, with the timestamp it is given. */
  datatype MacEvent =
    | StartOfFrame(handler: CallbackRef, context: ContextRef, timestampUs: Uint32)
    | EndOfFrame(handler: CallbackRef, context: ContextRef, timestampUs: Uint32)

  /** A call into the RF driver. */
  datatype DriverCall =
    | Open
    | Close
    | Flush(handle: CmdHandle, idleWhenIssued: bool)
    | PostFsOff
    | PostTxChain(fs: FsSetting, psdu: seq<Byte>)
    | PostRxChain(fs: FsSetting)
    | SetTxPower(tableKey: Int8)
    | RunTxTest(carrier: bool)

  function Min(a: nat, b: nat): nat
  {
    if a < b then a else b
  }

  // ---------------------------------------------------------------------------
  // Channel and power
  // ---------------------------------------------------------------------------

  /**
    The synthesiser setting for a channel index within the band. The kHz remainder is scaled
    to 1/65536 of a MHz by the integer factor 65536 / 1000 = 65, not by 65.536, so the
    fraction programmed is slightly smaller than the one meant.
  */
  function SynthSetting(channel: nat): (fs: FsSetting)
    requires channel < BandChannelCount
    ensures fs.fractFreq % 65 == 0
    ensures fs.frequency * KhzToHzRatio + fs.fractFreq / 65 == BandStartFrequency + channel * ChannelWidth
  {
    var f := BandStartFrequency + channel * ChannelWidth;
    FsSetting(f / KhzToHzRatio, (f % KhzToHzRatio) * (0x1_0000 / KhzToHzRatio))
  }

  /** Distinct channels of the band would have distinct synthesiser settings. */
  lemma SynthSettingInjective(a: nat, b: nat)
    requires a < BandChannelCount && b < BandChannelCount
    requires SynthSetting(a) == SynthSetting(b)
    ensures a == b
  {
    var fa, fb := SynthSetting(a), SynthSetting(b);
    assert BandStartFrequency + a * ChannelWidth == BandStartFrequency + b * ChannelWidth;
  }

  /**
    The setting the port programs for a requested channel: the channel is clipped to the
    band, then overwritten with 0, so every request yields the setting of channel 0:
    863 + 6500/65536 MHz, about 863.099 MHz.
  */
  function ChannelSetting(channel: nat): (fs: FsSetting)
    ensures fs == SynthSetting(0)
    ensures fs == FsSetting(863, 6500)
  {
    var clipped := if channel >= BandChannelCount then BandChannelCount - 1 else channel;
    var applied := 0;
    SynthSetting(applied)
  }

  /**
    The frequency every channel is tuned to, 863 + 6500/65536 MHz, lies between 863.099 MHz
    and the band start of 863.1 MHz: the factor 65 in place of 65.536 tunes it 0.82 kHz low.
  */
  lemma ChannelTunedBelowBandStart(channel: nat)
    ensures var fs := ChannelSetting(channel);
      && (BandStartFrequency - 1) * 0x1_0000 <= (fs.frequency * 0x1_0000 + fs.fractFreq) * KhzToHzRatio
      && (fs.frequency * 0x1_0000 + fs.fractFreq) * KhzToHzRatio < BandStartFrequency * 0x1_0000
  {
  }

  /**
    The power value looked up in the power table: `txp` when it lies within the table,
    the "highest" sentinel above it, the "lowest" sentinel below it.
  */
  function PowerTableKey(txp: Int8, tableFirst: Int8, tableLast: Int8): (key: Int8)
    requires tableFirst <= tableLast
    ensures tableFirst <= txp <= tableLast ==> key == txp
    ensures txp > tableLast ==> key == RfTxPowerTableMaxDbm
    ensures txp < tableFirst ==> key == RfTxPowerTableMinDbm
  {
    var high := if txp > tableLast then RfTxPowerTableMaxDbm else txp;
    if high < tableFirst then RfTxPowerTableMinDbm else high
  }

  // ---------------------------------------------------------------------------
  // The receive entry: length byte, payload, RSSI byte
  // ---------------------------------------------------------------------------

  /** A received frame: its payload and its signal strength. */
  datatype RxFrame = RxFrame(payload: seq<Byte>, rssi: Int8)

  /** The length check made before the receive entry is read. */
  predicate RxLengthGuard(len: nat)
  {
    len <= RxBufferLength
  }

  /** Reading a frame of length `len` (its payload and then its RSSI byte) stays in the buffer. */
  predicate RxEntryReadable(len: nat)
  {
    len + 2 <= RxBufferLength
  }

  /**
    The length check is weaker than the reads after it: it admits lengths whose RSSI byte
    lies past the end of the buffer. Lengths the hardware may write (at most the maximal
    packet length it is configured with) are readable.
  */
  lemma RxGuardWeakerThanReads()
    ensures forall len: nat :: RxEntryReadable(len) ==> RxLengthGuard(len)
    ensures RxLengthGuard(RxBufferLength - 1) && !RxEntryReadable(RxBufferLength - 1)
    ensures RxLengthGuard(RxBufferLength) && !RxEntryReadable(RxBufferLength)
    ensures forall len: nat :: len <= MaxPsduLength ==> RxEntryReadable(len)
  {
  }

  /** Reads a frame out of the receive entry. */
  function ParseRxEntry(raw: seq<Byte>): (f: RxFrame)
    requires |raw| == RxBufferLength && RxEntryReadable(raw[0])
    ensures |f.payload| == raw[0]
    ensures forall i :: 0 <= i < |f.payload| ==> f.payload[i] == raw[i + 1]
    ensures ByteOf(f.rssi) == raw[raw[0] + 1]
  {
    var len := raw[0];
    RxFrame(raw[1..len + 1], Int8Of(raw[len + 1]))
  }

  /** The receive entry the hardware writes for a frame, followed by `rest` unused bytes. */
  function RxEntryLayout(f: RxFrame, rest: seq<Byte>): (raw: seq<Byte>)
    requires |f.payload| + 2 + |rest| == RxBufferLength
    ensures |raw| == RxBufferLength && raw[0] == |f.payload|
  {
    [|f.payload|] + f.payload + [ByteOf(f.rssi)] + rest
  }

  /** Reading back the entry written for a frame yields that frame. */
  lemma ParseLayoutRoundTrip(f: RxFrame, rest: seq<Byte>)
    requires |f.payload| + 2 + |rest| == RxBufferLength
    ensures ParseRxEntry(RxEntryLayout(f, rest)) == f
  {
    var raw := RxEntryLayout(f, rest);
    var len := |f.payload|;
    assert raw[1..len + 1] == f.payload;
    assert raw[len + 1] == ByteOf(f.rssi);
    Int8ByteRoundTrip(f.rssi, 0);
  }

  /** Every readable entry is the layout of the frame read from it. */
  lemma LayoutParseRoundTrip(raw: seq<Byte>)
    requires |raw| == RxBufferLength && RxEntryReadable(raw[0])
    ensures RxEntryLayout(ParseRxEntry(raw), raw[raw[0] + 2..]) == raw
  {
    var f := ParseRxEntry(raw);
    var len := raw[0];
    Int8ByteRoundTrip(0, raw[len + 1]);
    assert raw == [raw[0]] + raw[1..len + 1] + [raw[len + 1]] + raw[len + 2..];
  }

  // ---------------------------------------------------------------------------
  // Callbacks into the MAC
  // ---------------------------------------------------------------------------

  /** The start-of-frame callback, if one is registered. */
  function StartNotice(handler: Option<CallbackRef>, context: ContextRef, t: Uint32): seq<MacEvent>
  {
    if handler.Some? then [StartOfFrame(handler.value, context, t)] else []
  }

  /** The end-of-frame callback, if one is registered. */
  function EndNotice(handler: Option<CallbackRef>, context: ContextRef, t: Uint32): seq<MacEvent>
  {
    if handler.Some? then [EndOfFrame(handler.value, context, t)] else []
  }

  // ---------------------------------------------------------------------------
  // Hardware commands
  // ---------------------------------------------------------------------------

  /** A frequency-synthesiser command of a chain. */
  class FsCommand {
    var frequency: Uint16
    var fractFreq: Uint16

    constructor ()
      ensures frequency == 0 && fractFreq == 0
    {
      frequency, fractFreq := 0, 0;
    }

    function Setting(): FsSetting
      reads this
    {
      FsSetting(frequency, fractFreq)
    }
  }

  /** Programs the synthesiser command for a channel: every channel gets channel 0's setting. */
  method SetChannel(cmd: FsCommand, channel: nat)
    modifies cmd
    ensures cmd.Setting() == ChannelSetting(channel)
    ensures cmd.frequency == 863 && cmd.fractFreq == 6500
  {
    var ch := channel;
    if ch >= BandChannelCount {
      ch := BandChannelCount - 1;
    }
    ch := 0;
    var f := BandStartFrequency + ch * ChannelWidth;
    cmd.frequency := f / KhzToHzRatio;
    cmd.fractFreq := (f % KhzToHzRatio) * (0x1_0000 / KhzToHzRatio);
  }

  // ---------------------------------------------------------------------------
  // The transceiver
  // ---------------------------------------------------------------------------

  /** The scalar part of the transceiver's state. */
  datatype Core = Core(
    idle: bool,
    txTransaction: CmdHandle,
    rxTransaction: CmdHandle,
    txPktLen: nat,
    rxPacketLength: nat,
    rxPacketRssi: Int8,
    rxEntryStatus: EntryStatus,
    rfHandleOpen: bool,
    onStartOfFrame: Option<CallbackRef>,
    onEndOfFrame: Option<CallbackRef>,
    handlersContext: ContextRef)

  /** The file-level state of the radio port. */
  class RadioPort {
    /** The synthesiser steps of the transmit and receive chains. */
    const txChainSetFs: FsCommand
    const rxChainSetFs: FsCommand
    /** The transmit buffer, the hardware's receive entry buffer, and the holding buffer. */
    const radioTxBuffer: array<Byte>
    const radioRxBuffer: array<Byte>
    const rxPacket: array<Byte>

    var idle: bool
    var txTransaction: CmdHandle
    var rxTransaction: CmdHandle
    /** The transmit data command's packet length. */
    var txPktLen: nat
    var rxPacketLength: nat
    var rxPacketRssi: Int8
    /** The status of the receive data entry. */
    var rxEntryStatus: EntryStatus
    var rfHandleOpen: bool
    var onStartOfFrame: Option<CallbackRef>
    var onEndOfFrame: Option<CallbackRef>
    var handlersContext: ContextRef

    ghost var macLog: seq<MacEvent>
    ghost var driverLog: seq<DriverCall>

    ghost predicate Valid()
      reads this
    {
      && radioTxBuffer.Length == TxBufferLength
      && radioRxBuffer.Length == RxBufferLength
      && rxPacket.Length == RxBufferLength
      && radioTxBuffer != radioRxBuffer && radioTxBuffer != rxPacket && radioRxBuffer != rxPacket
      && txChainSetFs != rxChainSetFs
      && txPktLen <= MaxPsduLength
      && RxEntryReadable(rxPacketLength)
    }

    ghost function CoreState(): Core
      reads this
    {
      Core(idle, txTransaction, rxTransaction, txPktLen, rxPacketLength, rxPacketRssi,
           rxEntryStatus, rfHandleOpen, onStartOfFrame, onEndOfFrame, handlersContext)
    }

    /** Static initialisation: zeroed buffers and flags, the receive entry pending. */
    constructor ()
      ensures Valid()
      ensures fresh(txChainSetFs) && fresh(rxChainSetFs) && fresh(radioTxBuffer) && fresh(radioRxBuffer) && fresh(rxPacket)
      ensures CoreState() == Core(false, 0, 0, 0, 0, 0, EntryPending, false, None, None, 0)
      ensures radioTxBuffer[..] == seq(TxBufferLength, _ => 0)
      ensures radioRxBuffer[..] == seq(RxBufferLength, _ => 0)
      ensures rxPacket[..] == seq(RxBufferLength, _ => 0)
      ensures txChainSetFs.Setting() == FsSetting(0, 0) && rxChainSetFs.Setting() == FsSetting(0, 0)
      ensures macLog == [] && driverLog == []
    {
      txChainSetFs := new FsCommand();
      rxChainSetFs := new FsCommand();
      radioTxBuffer := new Byte[TxBufferLength](_ => 0);
      radioRxBuffer := new Byte[RxBufferLength](_ => 0);
      rxPacket := new Byte[RxBufferLength](_ => 0);
      idle, txTransaction, rxTransaction := false, 0, 0;
      txPktLen, rxPacketLength, rxPacketRssi := 0, 0, 0;
      rxEntryStatus, rfHandleOpen := EntryPending, false;
      onStartOfFrame, onEndOfFrame, handlersContext := None, None, 0;
      macLog, driverLog := [], [];
    }

    /**
      Clears both outstanding handles and opens the radio (`openSucceeds` is the driver's
      answer). A failed open calls the abort handler and Init does not return (None);
      otherwise the radio is idled and Init returns Success.
    */
    method Init(openSucceeds: bool) returns (result: Option<Status>)
      requires Valid()
      modifies this
      ensures Valid()
      ensures txTransaction == RfAllocError && rxTransaction == RfAllocError
      ensures rfHandleOpen == openSucceeds
      ensures result == (if openSucceeds then Some(Success) else None)
      ensures idle == (openSucceeds || old(idle))
      ensures CoreState() == old(CoreState()).(idle := idle, txTransaction := RfAllocError,
                                                rxTransaction := RfAllocError, rfHandleOpen := openSucceeds)
      ensures driverLog == old(driverLog) + [Open]
                           + (if openSucceeds then [Flush(RfAllocError, true), Flush(RfAllocError, true), PostFsOff] else [])
      ensures macLog == old(macLog)
    {
      txTransaction := RfAllocError;
      rxTransaction := RfAllocError;
      driverLog := driverLog + [Open];
      rfHandleOpen := openSucceeds;
      if !rfHandleOpen {
        result := None;
        return;
      }
      var status := Idle();
      result := Some(status);
    }

    /** Registers the MAC's frame callbacks and the context handed back to them. */
    method SetCallbacks(onStartFrame: Option<CallbackRef>, onEndFrame: Option<CallbackRef>, cbtContext: ContextRef)
      modifies this
      ensures CoreState() == old(CoreState()).(onStartOfFrame := onStartFrame, onEndOfFrame := onEndFrame,
                                                handlersContext := cbtContext)
      ensures macLog == old(macLog) && driverLog == old(driverLog)
    {
      onStartOfFrame := onStartFrame;
      onEndOfFrame := onEndFrame;
      handlersContext := cbtContext;
    }

    /** Idles and closes the radio if it was opened; the handle itself is kept. */
    method Deinit()
      modifies this
      ensures CoreState() == old(CoreState()).(idle := old(idle) || rfHandleOpen)
      ensures driverLog == old(driverLog)
                           + (if rfHandleOpen
                              then [Flush(txTransaction, true), Flush(rxTransaction, true), PostFsOff, Close]
                              else [])
      ensures macLog == old(macLog)
    {
      if rfHandleOpen {
        var _ := Idle();
        driverLog := driverLog + [Close];
      }
    }

    /**
      Sets the idle flag, then flushes both outstanding commands and posts the
      synthesiser-off command. The outstanding handles are not cleared.
    */
    method Idle() returns (status: Status)
      modifies this
      ensures status == Success
      ensures idle
      ensures CoreState() == old(CoreState()).(idle := true)
      ensures driverLog == old(driverLog) + [Flush(txTransaction, true), Flush(rxTransaction, true), PostFsOff]
      ensures macLog == old(macLog)
    {
      idle := true;
      driverLog := driverLog + [Flush(txTransaction, idle)];
      driverLog := driverLog + [Flush(rxTransaction, idle)];
      driverLog := driverLog + [PostFsOff];
      status := Success;
    }

    /** Looks up the clamped power in the power table and applies it. */
    method SetTxp(txp: Int8, tableFirst: Int8, tableLast: Int8)
      requires tableFirst <= tableLast
      modifies this
      ensures CoreState() == old(CoreState())
      ensures driverLog == old(driverLog) + [SetTxPower(PowerTableKey(txp, tableFirst, tableLast))]
      ensures macLog == old(macLog)
    {
      var p := txp;
      if p > tableLast {
        p := RfTxPowerTableMaxDbm;
      }
      if p < tableFirst {
        p := RfTxPowerTableMinDbm;
      }
      driverLog := driverLog + [SetTxPower(p)];
    }

    /**
      Prepares a transmission: clears idle, applies power and channel, copies the payload,
      truncated to the maximal PSDU length, into the transmit buffer. The power table's first
      and last entries are `tableFirst` and `tableLast`.
    */
    method TxEnable(channel: nat, txp: Int8, psdu: seq<Byte>, psduLen: nat, tableFirst: Int8, tableLast: Int8)
      returns (status: Status)
      requires Valid()
      requires tableFirst <= tableLast
      requires Min(psduLen, MaxPsduLength) <= |psdu|
      modifies this, radioTxBuffer, txChainSetFs
      ensures Valid()
      ensures status == Success
      ensures txPktLen == Min(psduLen, MaxPsduLength)
      ensures radioTxBuffer[..txPktLen] == psdu[..txPktLen]
      ensures radioTxBuffer[txPktLen..] == old(radioTxBuffer[..])[txPktLen..]
      ensures txChainSetFs.Setting() == ChannelSetting(channel)
      ensures CoreState() == old(CoreState()).(idle := false, txPktLen := txPktLen)
      ensures driverLog == old(driverLog) + [SetTxPower(PowerTableKey(txp, tableFirst, tableLast))]
      ensures macLog == old(macLog)
    {
      idle := false;
      var len := psduLen;
      if len > MaxPsduLength {
        len := MaxPsduLength;
      }
      SetTxp(txp, tableFirst, tableLast);
      SetChannel(txChainSetFs, channel);
      ghost var before := radioTxBuffer[..];
      forall i | 0 <= i < len {
        radioTxBuffer[i] := psdu[i];
      }
      assert radioTxBuffer[len..] == before[len..];
      txPktLen := len;
      status := Success;
    }

    /** Posts the transmit chain; `postResult` is the handle the driver returns. */
    method TxNow(postResult: CmdHandle) returns (status: Status)
      requires Valid()
      modifies this
      ensures Valid()
      ensures txTransaction == postResult
      ensures status == GeneralError <==> postResult == RfAllocError
      ensures status == Success <==> postResult != RfAllocError
      ensures CoreState() == old(CoreState()).(txTransaction := postResult)
      ensures driverLog == old(driverLog) + [PostTxChain(txChainSetFs.Setting(), radioTxBuffer[..txPktLen])]
      ensures macLog == old(macLog)
    {
      driverLog := driverLog + [PostTxChain(txChainSetFs.Setting(), radioTxBuffer[..txPktLen])];
      txTransaction := postResult;
      status := if RfAllocError == txTransaction then GeneralError else Success;
    }

    /**
      Prepares a reception. The idle flag is cleared first, even when a receive command is
      still outstanding and the call is refused with WrongState.
    */
    method RxEnable(channel: nat) returns (status: Status)
      requires Valid()
      modifies this, rxChainSetFs
      ensures Valid()
      ensures CoreState() == old(CoreState()).(idle := false)
      ensures status == WrongState <==> rxTransaction != RfAllocError
      ensures status == Success <==> rxTransaction == RfAllocError
      ensures rxTransaction != RfAllocError ==> unchanged(rxChainSetFs)
      ensures rxTransaction == RfAllocError ==> rxChainSetFs.Setting() == ChannelSetting(channel)
      ensures driverLog == old(driverLog) && macLog == old(macLog)
    {
      idle := false;
      if rxTransaction != RfAllocError {
        return WrongState;
      }
      SetChannel(rxChainSetFs, channel);
      status := Success;
    }

    /** Posts the receive chain; `postResult` is the handle the driver returns. */
    method RxNow(postResult: CmdHandle) returns (status: Status)
      requires Valid()
      modifies this
      ensures Valid()
      ensures rxTransaction == postResult
      ensures status == GeneralError <==> postResult == RfAllocError
      ensures status == Success <==> postResult != RfAllocError
      ensures CoreState() == old(CoreState()).(rxTransaction := postResult)
      ensures driverLog == old(driverLog) + [PostRxChain(rxChainSetFs.Setting())]
      ensures macLog == old(macLog)
    {
      driverLog := driverLog + [PostRxChain(rxChainSetFs.Setting())];
      rxTransaction := postResult;
      status := if RfAllocError == rxTransaction then GeneralError else Success;
    }

    /**
      Hands the held frame to the MAC's `buffer` of `bufferLength` bytes. A frame longer
      than the buffer is discarded. A frame that fits stays held: the call does not drain it.
    */
    method GetReceivedFrame(buffer: array<Byte>, bufferLength: nat) returns (info: RxInfo)
      requires Valid()
      requires bufferLength <= buffer.Length
      requires buffer != rxPacket && buffer != radioTxBuffer && buffer != radioRxBuffer
      modifies this, buffer
      ensures Valid()
      ensures bufferLength < old(rxPacketLength) ==> rxPacketLength == 0
      ensures bufferLength >= old(rxPacketLength) ==> rxPacketLength == old(rxPacketLength)
      ensures info.mpduLength == rxPacketLength
      ensures info.crcValid <==> info.mpduLength != 0
      ensures info.lqi == 0 && info.rssi == rxPacketRssi
      ensures buffer[..info.mpduLength] == rxPacket[..info.mpduLength]
      ensures buffer[info.mpduLength..] == old(buffer[info.mpduLength..])
      ensures CoreState() == old(CoreState()).(rxPacketLength := rxPacketLength)
      ensures driverLog == old(driverLog) && macLog == old(macLog)
    {
      if bufferLength < rxPacketLength {
        rxPacketLength := 0;
      }
      info := RxInfo(rxPacketLength != 0, 0, rxPacketLength, rxPacketRssi);
      if rxPacketLength != 0 {
        forall i | 0 <= i < rxPacketLength {
          buffer[i] := rxPacket[i];
        }
      }
    }

    /**
      The manufacturing test mode: prepares a one-byte transmission, then runs the vendor's
      test command (carrier only or modulated).
    */
    method StartContinuousTx(carrier: bool, channel: nat, txp: Int8, tableFirst: Int8, tableLast: Int8)
      returns (status: Status)
      requires Valid()
      requires tableFirst <= tableLast
      modifies this, radioTxBuffer, txChainSetFs
      ensures Valid()
      ensures status == Success
      ensures txPktLen == 1 && radioTxBuffer[0] == 0
      ensures radioTxBuffer[1..] == old(radioTxBuffer[1..])
      ensures txChainSetFs.Setting() == ChannelSetting(channel)
      ensures CoreState() == old(CoreState()).(idle := false, txPktLen := 1)
      ensures driverLog == old(driverLog) + [SetTxPower(PowerTableKey(txp, tableFirst, tableLast)), RunTxTest(carrier)]
      ensures macLog == old(macLog)
    {
      var result := TxEnable(channel, txp, [0], 1, tableFirst, tableLast);
      if result == Success {
        driverLog := driverLog + [RunTxTest(carrier)];
      }
      status := Success;
    }

    /**
      The receive chain's completion handler. `events` is the driver's event mask, `status`
      the receive data command's status and `nowUs` the counter reading. A successful
      completion must not carry one of the two lengths the check admits but whose RSSI byte
      lies past the end of the receive entry.
    */
    method RxProcess(events: set<RfEvent>, status: CmdStatus, nowUs: Uint32)
      requires Valid()
      requires !idle && MdmSoft !in events && (RxOk in events || RxNOk in events) && status == PropDoneOk ==>
        RxEntryReadable(radioRxBuffer[0]) || !RxLengthGuard(radioRxBuffer[0])
      modifies this, rxPacket
      ensures Valid()
      ensures driverLog == old(driverLog)
      // Ignored while idle.
      ensures old(idle) ==> CoreState() == old(CoreState()) && macLog == old(macLog) && unchanged(rxPacket)
      // Start of frame: the MAC is told when the first payload bit was on air.
      ensures !old(idle) && MdmSoft in events ==>
        && CoreState() == old(CoreState()) && unchanged(rxPacket)
        && macLog == old(macLog) + StartNotice(onStartOfFrame, handlersContext, Sub32(nowUs, RxStartCorrection))
      // A good frame is moved to the holding buffer.
      ensures !old(idle) && MdmSoft !in events && (RxOk in events || RxNOk in events) && status == PropDoneOk
              && RxLengthGuard(old(radioRxBuffer[0])) ==>
        && var f := ParseRxEntry(old(radioRxBuffer[..]));
        && rxPacketLength == |f.payload| && rxPacketRssi == f.rssi
        && rxPacket[..rxPacketLength] == f.payload
        && rxPacket[rxPacketLength..] == old(rxPacket[..])[rxPacketLength..]
        && CoreState() == old(CoreState()).(rxPacketLength := rxPacketLength, rxPacketRssi := rxPacketRssi,
                                             rxEntryStatus := EntryPending, rxTransaction := RfAllocError)
        && macLog == old(macLog) + EndNotice(onEndOfFrame, handlersContext, nowUs)
      // A bad frame, or one whose length fails the check, is reported with length zero.
      ensures !old(idle) && MdmSoft !in events && (RxOk in events || RxNOk in events)
              && (status == PropDoneRxErr || (status == PropDoneOk && !RxLengthGuard(old(radioRxBuffer[0])))) ==>
        && unchanged(rxPacket)
        && CoreState() == old(CoreState()).(rxPacketLength := 0, rxPacketRssi := 0,
                                             rxEntryStatus := EntryPending, rxTransaction := RfAllocError)
        && macLog == old(macLog) + EndNotice(onEndOfFrame, handlersContext, nowUs)
      // Any other completion status is ignored.
      ensures !old(idle) && MdmSoft !in events && (RxOk in events || RxNOk in events)
              && status != PropDoneOk && status != PropDoneRxErr ==>
        CoreState() == old(CoreState()) && macLog == old(macLog) && unchanged(rxPacket)
      // Any other event ends the transaction silently.
      ensures !old(idle) && MdmSoft !in events && RxOk !in events && RxNOk !in events ==>
        && unchanged(rxPacket) && macLog == old(macLog)
        && CoreState() == old(CoreState()).(rxEntryStatus := EntryPending, rxTransaction := RfAllocError)
    {
      if idle {
        return;
      }
      var t := nowUs;
      if MdmSoft in events {
        macLog := macLog + StartNotice(onStartOfFrame, handlersContext, Sub32(t, RxStartCorrection));
      } else if RxOk in events || RxNOk in events {
        if status == PropDoneOk || status == PropDoneRxErr {
          if PropDoneOk == status && RxLengthGuard(radioRxBuffer[0]) {
            ghost var raw := radioRxBuffer[..];
            rxPacketLength := radioRxBuffer[0];
            rxPacketRssi := Int8Of(radioRxBuffer[rxPacketLength + 1]);
            var len := rxPacketLength;
            ghost var held := rxPacket[..];
            forall i | 0 <= i < len {
              rxPacket[i] := radioRxBuffer[i + 1];
            }
            assert rxPacket[..len] == raw[1..len + 1];
            assert rxPacket[len..] == held[len..];
          } else {
            rxPacketLength := 0;
            rxPacketRssi := 0;
          }
          rxEntryStatus := EntryPending;
          rxTransaction := RfAllocError;
          macLog := macLog + EndNotice(onEndOfFrame, handlersContext, t);
        }
      } else {
        rxEntryStatus := EntryPending;
        rxTransaction := RfAllocError;
      }
    }

    /**
      The transmit chain's completion handler. `events` is the driver's event mask, `status`
      the transmit data command's status, `nowUs` the counter reading taken on entry and
      `laterUs` the second reading taken for the start-of-frame callback.
    */
    method TxProcess(events: set<RfEvent>, status: CmdStatus, nowUs: Uint32, laterUs: Uint32)
      requires Valid()
      modifies this
      ensures Valid()
      ensures driverLog == old(driverLog)
      // Ignored while idle.
      ensures old(idle) ==> CoreState() == old(CoreState()) && macLog == old(macLog)
      // End of transmission takes precedence; the MAC hears of it only on success.
      ensures !old(idle) && LastCmdDone in events ==>
        && CoreState() == old(CoreState()).(txTransaction := RfAllocError)
        && macLog == old(macLog) + (if status == PropDoneOk || status == DoneOk
                                    then EndNotice(onEndOfFrame, handlersContext, Add32(nowUs, TxEndCorrection))
                                    else [])
      // Synthesiser ready: the frame is about to go on air.
      ensures !old(idle) && LastCmdDone !in events && CmdDone in events ==>
        && CoreState() == old(CoreState())
        && macLog == old(macLog) + StartNotice(onStartOfFrame, handlersContext, Add32(laterUs, TxStartCorrection))
      // Any other event ends the transaction silently.
      ensures !old(idle) && LastCmdDone !in events && CmdDone !in events ==>
        CoreState() == old(CoreState()).(txTransaction := RfAllocError) && macLog == old(macLog)
    {
      if idle {
        return;
      }
      var t := nowUs;
      if LastCmdDone in events {
        txTransaction := RfAllocError;
        if PropDoneOk == status || DoneOk == status {
          macLog := macLog + EndNotice(onEndOfFrame, handlersContext, Add32(t, TxEndCorrection));
        }
      } else if CmdDone in events {
        macLog := macLog + StartNotice(onStartOfFrame, handlersContext, Add32(laterUs, TxStartCorrection));
      } else {
        txTransaction := RfAllocError;
      }
    }
  }
}
