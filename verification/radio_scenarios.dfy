/**
  Call sequences a MAC makes on the radio port, with what each sequence is proved to
  produce: a reception, a transmission, a repeated retrieval, and Idle silencing the handlers.
*/
module RadioScenarios {
  import opened PortTypes
  import opened Radio

  /**
    Reception: a frame of five bytes with RSSI -60 dBm arrives after the receive chain is
    posted. The MAC hears of the frame start 1620 us before the detection event and of the
    frame end at the completion event, then retrieves the frame.
  */
  method ReceptionScenario(payload: seq<Byte>, handle: CmdHandle, t0: Uint32, t1: Uint32)
    returns (info: RxInfo, received: seq<Byte>, ghost calls: seq<MacEvent>)
    requires |payload| == 5 && handle != RfAllocError
    ensures info == RxInfo(true, 0, 5, -60)
    ensures received == payload
    ensures calls == [StartOfFrame(1, 7, Sub32(t0, RxStartCorrection)), EndOfFrame(2, 7, t1)]
  {
    var radio := new RadioPort();
    var _ := radio.Init(true);
    radio.SetCallbacks(Some(1), Some(2), 7);
    var enabled := radio.RxEnable(12);
    assert enabled == Success;
    var posted := radio.RxNow(handle);

    // The hardware writes the receive entry.
    var frame := RxFrame(payload, -60);
    var entry := RxEntryLayout(frame, seq(RxBufferLength - 7, _ => 0));
    forall i | 0 <= i < RxBufferLength {
      radio.radioRxBuffer[i] := entry[i];
    }
    assert radio.radioRxBuffer[..] == entry;
    ParseLayoutRoundTrip(frame, seq(RxBufferLength - 7, _ => 0));

    radio.RxProcess({MdmSoft}, PropDoneOk, t0);
    radio.RxProcess({RxOk}, PropDoneOk, t1);
    var buffer := new Byte[32](_ => 0);
    info := radio.GetReceivedFrame(buffer, 32);
    received := buffer[..5];
    calls := radio.macLog;
  }

  /**
    Transmission of two bytes: the posted chain carries exactly those bytes and the
    synthesiser setting of channel 0; the MAC hears of the frame start 550 us after the
    synthesiser event and of the frame end 330 us after the completion event.
  */
  method TransmissionScenario(handle: CmdHandle, tStart: Uint32, tLater: Uint32, tEnd: Uint32)
    returns (enableStatus: Status, nowStatus: Status, ghost posted: DriverCall, ghost calls: seq<MacEvent>)
    requires handle != RfAllocError
    ensures enableStatus == Success && nowStatus == Success
    ensures posted == PostTxChain(FsSetting(863, 6500), [0xAA, 0xBB])
    ensures calls == [StartOfFrame(1, 7, Add32(tLater, TxStartCorrection)), EndOfFrame(2, 7, Add32(tEnd, TxEndCorrection))]
  {
    var radio := new RadioPort();
    var _ := radio.Init(true);
    radio.SetCallbacks(Some(1), Some(2), 7);
    enableStatus := radio.TxEnable(5, 10, [0xAA, 0xBB], 2, -20, 14);
    nowStatus := radio.TxNow(handle);
    posted := radio.driverLog[|radio.driverLog| - 1];
    radio.TxProcess({CmdDone}, PropDoneOk, tStart, tLater);
    radio.TxProcess({LastCmdDone}, PropDoneOk, tEnd, tEnd);
    calls := radio.macLog;
  }

  /** A payload longer than the maximal PSDU is truncated, not refused. */
  method OversizedPayloadTruncated(radio: RadioPort, psdu: seq<Byte>, handle: CmdHandle)
    returns (status: Status)
    requires radio.Valid() && |psdu| > MaxPsduLength
    modifies radio, radio.radioTxBuffer, radio.txChainSetFs
    ensures status == Success
    ensures |radio.driverLog| > 0
    ensures radio.driverLog[|radio.driverLog| - 1] == PostTxChain(FsSetting(863, 6500), psdu[..MaxPsduLength])
  {
    status := radio.TxEnable(68, 0, psdu, |psdu|, -20, 14);
    var _ := radio.TxNow(handle);
  }

  /** A frame that fits the MAC's buffer is returned again by a second retrieval. */
  method RetrievalIsRepeatable(radio: RadioPort, buffer: array<Byte>, bufferLength: nat)
    returns (first: RxInfo, second: RxInfo)
    requires radio.Valid() && bufferLength <= buffer.Length
    requires buffer != radio.rxPacket && buffer != radio.radioTxBuffer && buffer != radio.radioRxBuffer
    requires radio.rxPacketLength <= bufferLength
    modifies radio, buffer
    ensures first == second
    ensures first.mpduLength == old(radio.rxPacketLength)
  {
    first := radio.GetReceivedFrame(buffer, bufferLength);
    second := radio.GetReceivedFrame(buffer, bufferLength);
  }

  /** After Idle, whatever events arrive, neither handler changes state or calls the MAC. */
  method IdleSilencesHandlers(radio: RadioPort, rxEvents: set<RfEvent>, rxStatus: CmdStatus,
                              txEvents: set<RfEvent>, txStatus: CmdStatus, t0: Uint32, t1: Uint32)
    requires radio.Valid()
    modifies radio, radio.rxPacket
    ensures radio.idle
    ensures radio.CoreState() == old(radio.CoreState()).(idle := true)
    ensures radio.macLog == old(radio.macLog)
    ensures unchanged(radio.rxPacket)
  {
    var _ := radio.Idle();
    radio.RxProcess(rxEvents, rxStatus, t0);
    radio.TxProcess(txEvents, txStatus, t0, t1);
  }

  /**
    Idle does not release an outstanding receive command, and the flushed command's
    callback is ignored while idle: a following RxEnable is refused with WrongState, yet
    leaves the radio out of idle so that RxNow can post the receive chain again.
  */
  method IdleKeepsReceiveOutstanding(radio: RadioPort, channel: nat, handle: CmdHandle)
    returns (enableStatus: Status, nowStatus: Status)
    requires radio.Valid() && radio.rxTransaction != RfAllocError && handle != RfAllocError
    modifies radio, radio.rxPacket, radio.rxChainSetFs
    ensures enableStatus == WrongState && nowStatus == Success
    ensures !radio.idle && radio.rxTransaction == handle
  {
    var _ := radio.Idle();
    radio.RxProcess({OtherEvent(0)}, OtherStatus(0), 0);
    enableStatus := radio.RxEnable(channel);
    nowStatus := radio.RxNow(handle);
  }
}
