/**
 * One reader as a state machine on values: the two pulse handlers, one pass
 * of the polling loop over this reader, and runs of several passes. The
 * `Reader` class is proved to follow these functions step by step.
 */
module ReaderSpec {
  import opened Options
  import opened WiegandConfig
  import opened BitField
  import opened CardFormat

  /** One call of a reader's card-read handler, with the values it sees. */
  datatype CardRead = CardRead(
    reader: nat, handler: CallbackId,
    bitCount: nat, facilityCode: nat, cardCode: nat, unsupported: bool)

  /** The fields of `ProxReaderInfo`; `counter` is `wiegandCounter`, `bits` is `databits`. */
  datatype ReaderState = ReaderState(
    pinData0: int, pinData1: int,
    flagDone: bool, cardUnsupported: bool,
    facilityCode: nat, cardCode: nat,
    bitCount: nat, counter: nat,
    bits: seq<int>,
    onCardRead: Option<CallbackId>)

  /**
   * What holds of a registered reader between two pulses or passes: the buffer
   * holds bits and is zero beyond the frame received so far, the counters stay
   * within their C types, a reader that is not done still has passes to wait,
   * and both codes are 0 (they are non-zero only while the handler runs).
   */
  predicate Inv(s: ReaderState) {
    && |s.bits| == MaxReadBits && IsBits(s.bits)
    && s.bitCount <= MaxBitCount
    && (forall i :: s.bitCount <= i < |s.bits| ==> s.bits[i] == 0)
    && s.counter <= WiegandWaitTime
    && (s.flagDone || s.counter >= 1)
    && s.facilityCode == 0 && s.cardCode == 0
  }

  /** The state `addReader` leaves a new reader in, its memory assumed zero-filled. */
  function Registered(pinData0: int, pinData1: int, onCardRead: Option<CallbackId>): (s: ReaderState)
    ensures Inv(s) && s.bitCount == 0 && !s.flagDone
    ensures s.bits == Zeros(MaxReadBits) && s.counter == WiegandWaitTime
  {
    ReaderState(pinData0, pinData1, false, false, 0, 0, 0, WiegandWaitTime, Zeros(MaxReadBits), onCardRead)
  }

  /** A pulse on DATA0, a 0 bit: counted but not written, the buffer cell is already 0. */
  function OnData0(s: ReaderState): (r: ReaderState)
    requires Inv(s) && s.bitCount < MaxBitCount
    ensures Inv(r)
    ensures r.bitCount == s.bitCount + 1 && r.bits == s.bits
    ensures !r.flagDone && r.counter == WiegandWaitTime
  {
    s.(bitCount := s.bitCount + 1, flagDone := false, counter := WiegandWaitTime)
  }

  /** A pulse on DATA1, a 1 bit: written at the current count, then counted. */
  function OnData1(s: ReaderState): (r: ReaderState)
    requires Inv(s) && s.bitCount < MaxReadBits
    ensures Inv(r)
    ensures r.bitCount == s.bitCount + 1 && r.bits[s.bitCount] == 1
    ensures forall i :: 0 <= i < |r.bits| && i != s.bitCount ==> r.bits[i] == s.bits[i]
    ensures !r.flagDone && r.counter == WiegandWaitTime
  {
    s.(bits := s.bits[s.bitCount := 1], bitCount := s.bitCount + 1,
       flagDone := false, counter := WiegandWaitTime)
  }

  /** The pulse handler for one bit value. */
  function Received(s: ReaderState, bit: int): ReaderState
    requires Inv(s) && (bit == 0 || bit == 1) && s.bitCount < MaxReadBits
  {
    if bit == 1 then OnData1(s) else OnData0(s)
  }

  /** The pulses of a whole frame, in order. */
  function Feed(s: ReaderState, frame: seq<int>): (r: ReaderState)
    requires Inv(s) && IsBits(frame) && s.bitCount + |frame| <= MaxReadBits
    ensures Inv(r) && r.bitCount == s.bitCount + |frame|
    ensures frame != [] ==> !r.flagDone && r.counter == WiegandWaitTime
    decreases |frame|
  {
    if frame == [] then s
    else Received(Feed(s, frame[..|frame| - 1]), frame[|frame| - 1])
  }

  /** The countdown at the head of a pass: a reader not yet done waits one pass less. */
  function Tick(s: ReaderState): (r: ReaderState)
    requires s.flagDone || s.counter >= 1
    ensures Inv(s) ==> Inv(r)
  {
    if s.flagDone then s
    else s.(counter := s.counter - 1, flagDone := s.counter - 1 == 0)
  }

  /** The pass decodes this reader: bits are pending and the countdown has run out. */
  predicate FrameEnds(s: ReaderState) {
    s.bitCount > 0 && (s.flagDone || s.counter == 1)
  }

  datatype StepResult = StepResult(state: ReaderState, fired: Option<CardRead>)

  /**
   * One pass of the polling loop over the reader at position `index`:
   * countdown, then, for a completed frame, decoding, the handler call and the
   * reset of the frame.
   */
  function Step(s: ReaderState, index: nat): (r: StepResult)
    requires Inv(s)
    ensures Inv(r.state)
  {
    Process(Tick(s), index)
  }

  /**
   * The rest of a pass after the countdown: a completed frame is decoded,
   * reported to the handler if there is one, and cleared; otherwise nothing
   * changes.
   */
  function Process(t: ReaderState, index: nat): (r: StepResult)
    requires Inv(t)
    ensures Inv(r.state)
  {
    if t.bitCount > 0 && t.flagDone then
      var d := DecodeFrame(t.bits, t.bitCount);
      var fired :=
        if t.onCardRead.Some?
        then Some(CardRead(index, t.onCardRead.value, t.bitCount, d.facilityCode, d.cardCode, d.unsupported))
        else None;
      StepResult(t.(cardUnsupported := d.unsupported, bitCount := 0, facilityCode := 0, cardCode := 0,
                    bits := Zeros(MaxReadBits)),
                 fired)
    else
      StepResult(t, None)
  }

  /** The countdown of a pass: a reader not yet done waits one pass less and is done when none remain. */
  lemma StepCountsDown(s: ReaderState, index: nat)
    requires Inv(s)
    ensures var r := Step(s, index).state;
            && (!s.flagDone ==> r.counter == s.counter - 1 && (r.flagDone <==> s.counter == 1))
            && (s.flagDone ==> r.counter == s.counter && r.flagDone)
  {
  }

  /** A pass that does not complete a frame changes only the countdown and calls nothing. */
  lemma StepWithoutFrame(s: ReaderState, index: nat)
    requires Inv(s) && !FrameEnds(s)
    ensures var r := Step(s, index);
            r.fired == None && r.state == s.(counter := r.state.counter, flagDone := r.state.flagDone)
  {
  }

  /**
   * A pass that completes a frame clears it, records whether its length was
   * recognised, and keeps the pins and the handler.
   */
  lemma StepClearsFrame(s: ReaderState, index: nat)
    requires Inv(s) && FrameEnds(s)
    ensures var r := Step(s, index).state;
            && r.bitCount == 0 && r.bits == Zeros(MaxReadBits) && r.flagDone
            && r.cardUnsupported == !IsSupportedLength(s.bitCount)
            && r.pinData0 == s.pinData0 && r.pinData1 == s.pinData1 && r.onCardRead == s.onCardRead
  {
  }

  /**
   * The handler is called exactly when a frame completes and a handler is
   * set, with the reader's position, the frame length and the decoded codes.
   */
  lemma StepCallsHandler(s: ReaderState, index: nat)
    requires Inv(s)
    ensures var f := Step(s, index).fired;
            var d := DecodeFrame(s.bits, s.bitCount);
            && (f.Some? <==> FrameEnds(s) && s.onCardRead.Some?)
            && (f.Some? ==>
                  f.value == CardRead(index, s.onCardRead.value, s.bitCount, d.facilityCode, d.cardCode, d.unsupported))
  {
  }

  /** The handler calls of a step, as a sequence of zero or one. */
  function Calls(fired: Option<CardRead>): seq<CardRead> {
    if fired.Some? then [fired.value] else []
  }

  datatype RunResult = RunResult(state: ReaderState, events: seq<CardRead>)

  /** `passes` consecutive passes with no pulse in between, and the handler calls they make. */
  function Run(s: ReaderState, index: nat, passes: nat): (r: RunResult)
    requires Inv(s)
    ensures Inv(r.state)
    ensures |r.events| <= passes
    decreases passes
  {
    if passes == 0 then RunResult(s, [])
    else
      var p := Run(s, index, passes - 1);
      var q := Step(p.state, index);
      RunResult(q.state, p.events + Calls(q.fired))
  }

  /** One pass of the polling loop over all readers, in registration order. */
  datatype PassResult = PassResult(states: seq<ReaderState>, events: seq<CardRead>)

  /** Every reader state of a registry satisfies the invariant. */
  predicate AllInv(ss: seq<ReaderState>) {
    forall i :: 0 <= i < |ss| ==> Inv(ss[i])
  }

  /**
   * The pass of the polling loop over the first `n` readers: every reader
   * state, those before `n` stepped, and the handler calls made so far.
   * `Scan(ss, |ss|)` is a whole pass.
   */
  function Scan(ss: seq<ReaderState>, n: nat): (r: PassResult)
    requires AllInv(ss) && n <= |ss|
    ensures |r.states| == |ss| && |r.events| <= n
    decreases n
  {
    if n == 0 then PassResult(ss, [])
    else
      var p := Scan(ss, n - 1);
      var q := Step(ss[n - 1], n - 1);
      PassResult(p.states[n - 1 := q.state], p.events + Calls(q.fired))
  }

  /** Readers at or after `n` are untouched by the first `n` steps of a pass. */
  lemma {:induction false} ScanLeavesRest(ss: seq<ReaderState>, n: nat, i: nat)
    requires AllInv(ss) && n <= i < |ss|
    ensures Scan(ss, n).states[i] == ss[i]
    decreases n
  {
    if n > 0 {
      ScanLeavesRest(ss, n - 1, i);
    }
  }

  /** The pass advanced by one more reader: reader `n`, still in its starting state, takes its step. */
  lemma ScanNext(ss: seq<ReaderState>, n: nat)
    requires AllInv(ss) && n < |ss|
    ensures Scan(ss, n).states[n] == ss[n]
    ensures Scan(ss, n + 1).states == Scan(ss, n).states[n := Step(ss[n], n).state]
    ensures Scan(ss, n + 1).events == Scan(ss, n).events + Calls(Step(ss[n], n).fired)
  {
    ScanLeavesRest(ss, n, n);
  }

  /** After a pass, each reader is in the state its own step gives. */
  lemma {:induction false} ScanStates(ss: seq<ReaderState>, n: nat)
    requires AllInv(ss) && n <= |ss|
    ensures forall i :: 0 <= i < n ==> Scan(ss, n).states[i] == Step(ss[i], i).state
    decreases n
  {
    if n > 0 {
      ScanStates(ss, n - 1);
    }
  }

  /** Every handler call of a pass is the call of one reader's step. */
  lemma {:induction false} ScanEventsFromSteps(ss: seq<ReaderState>, n: nat)
    requires AllInv(ss) && n <= |ss|
    ensures forall e :: e in Scan(ss, n).events ==>
              e.reader < n && Step(ss[e.reader], e.reader).fired == Some(e)
    decreases n
  {
    if n > 0 {
      ScanEventsFromSteps(ss, n - 1);
    }
  }

  /** Every reader whose step calls its handler has that call among the pass's calls. */
  lemma {:induction false} ScanEventsComplete(ss: seq<ReaderState>, n: nat)
    requires AllInv(ss) && n <= |ss|
    ensures forall i :: 0 <= i < n && Step(ss[i], i).fired.Some? ==>
              Step(ss[i], i).fired.value in Scan(ss, n).events
    decreases n
  {
    if n > 0 {
      ScanEventsComplete(ss, n - 1);
    }
  }

  /** Handler calls listed by strictly increasing reader position. */
  predicate InReaderOrder(es: seq<CardRead>) {
    forall a, b :: 0 <= a < b < |es| ==> es[a].reader < es[b].reader
  }

  /** A call from a reader after all those already listed keeps the order. */
  lemma InReaderOrderSnoc(es: seq<CardRead>, e: CardRead)
    requires InReaderOrder(es) && forall x :: x in es ==> x.reader < e.reader
    ensures InReaderOrder(es + [e])
  {
    forall a, b | 0 <= a < b < |es + [e]|
      ensures (es + [e])[a].reader < (es + [e])[b].reader
    {
      assert (es + [e])[a] == es[a] && es[a] in es;
    }
  }

  /** The calls of a pass come in reader order, at most one per reader. */
  lemma {:induction false} ScanEventsOrdered(ss: seq<ReaderState>, n: nat)
    requires AllInv(ss) && n <= |ss|
    ensures InReaderOrder(Scan(ss, n).events)
    decreases n
  {
    if n > 0 {
      ScanEventsOrdered(ss, n - 1);
      ScanEventsFromSteps(ss, n - 1);
      var q := Step(ss[n - 1], n - 1).fired;
      if q.Some? {
        StepCallsHandler(ss[n - 1], n - 1);
        InReaderOrderSnoc(Scan(ss, n - 1).events, q.value);
      } else {
        assert Scan(ss, n).events == Scan(ss, n - 1).events;
      }
    }
  }

  /**
   * Feeding a frame writes it right after the bits already received: the
   * buffer holds those bits, then the frame, then zeros.
   */
  lemma {:induction false} FeedWritesFrame(s: ReaderState, frame: seq<int>)
    requires Inv(s) && IsBits(frame) && s.bitCount + |frame| <= MaxReadBits
    ensures var r := Feed(s, frame);
            && r.bits == s.bits[..s.bitCount] + frame + Zeros(MaxReadBits - s.bitCount - |frame|)
            && r.pinData0 == s.pinData0 && r.pinData1 == s.pinData1
            && r.onCardRead == s.onCardRead && r.cardUnsupported == s.cardUnsupported
    decreases |frame|
  {
    if frame == [] {
      assert s.bits == s.bits[..s.bitCount] + Zeros(MaxReadBits - s.bitCount);
    } else {
      var n := |frame| - 1;
      var prefix, bit := frame[..n], frame[n];
      FeedWritesFrame(s, prefix);
      var t := Feed(s, prefix);
      var r := Feed(s, frame);
      assert r == Received(t, bit);
      var expected := s.bits[..s.bitCount] + frame + Zeros(MaxReadBits - s.bitCount - |frame|);
      assert t.bits == s.bits[..s.bitCount] + prefix + Zeros(MaxReadBits - s.bitCount - n);
      assert forall i :: 0 <= i < MaxReadBits ==> r.bits[i] == expected[i];
    }
  }

  /** While the countdown has not run out, passes change only the counter and call nothing. */
  lemma {:induction false} QuietPasses(s: ReaderState, index: nat, passes: nat)
    requires Inv(s) && !s.flagDone && passes < s.counter
    ensures Run(s, index, passes) == RunResult(s.(counter := s.counter - passes), [])
    decreases passes
  {
    if passes > 0 {
      QuietPasses(s, index, passes - 1);
    }
  }

  /**
   * A pulse restarts the wait: for `WiegandWaitTime - 1` passes after it the
   * frame is not done and nothing is reported, and the pass after those
   * completes it.
   */
  lemma BitArrivalRestartsWait(s: ReaderState, index: nat, bit: int, passes: nat)
    requires Inv(s) && (bit == 0 || bit == 1) && s.bitCount < MaxReadBits
    requires passes < WiegandWaitTime
    ensures var r := Run(Received(s, bit), index, passes);
            && !r.state.flagDone && r.events == []
            && r.state.bitCount == s.bitCount + 1
            && FrameEnds(r.state) == (passes == WiegandWaitTime - 1)
  {
    QuietPasses(Received(s, bit), index, passes);
  }

  /** Passes over a reader with no pending bits never call the handler and touch only the countdown. */
  lemma {:induction false} IdlePassesNeverFire(s: ReaderState, index: nat, passes: nat)
    requires Inv(s) && s.bitCount == 0
    ensures var r := Run(s, index, passes);
            && r.events == []
            && r.state == s.(counter := r.state.counter, flagDone := r.state.flagDone)
    decreases passes
  {
    if passes > 0 {
      IdlePassesNeverFire(s, index, passes - 1);
    }
  }

  /**
   * End to end: a frame pulsed into an idle reader is reported once, decoded,
   * exactly `WiegandWaitTime` passes later, and never earlier; the reader is
   * then idle again with a zero buffer.
   */
  lemma FrameReportedAfterWait(s: ReaderState, index: nat, frame: seq<int>, passes: nat)
    requires Inv(s) && s.bitCount == 0 && IsBits(frame) && 0 < |frame| <= MaxReadBits
    requires passes <= WiegandWaitTime
    ensures var r := Run(Feed(s, frame), index, passes);
            var d := DecodeFrame(Pad(frame), |frame|);
            && (passes < WiegandWaitTime ==> r.events == [] && r.state.bitCount == |frame|)
            && (passes == WiegandWaitTime ==>
                  && r.events == (if s.onCardRead.Some?
                                  then [CardRead(index, s.onCardRead.value, |frame|, d.facilityCode, d.cardCode, d.unsupported)]
                                  else [])
                  && r.state.bitCount == 0 && r.state.bits == Zeros(MaxReadBits)
                  && r.state.cardUnsupported == d.unsupported)
  {
    var t := Feed(s, frame);
    FeedWritesFrame(s, frame);
    assert t.bits == Pad(frame);
    if passes < WiegandWaitTime {
      QuietPasses(t, index, passes);
    } else {
      QuietPasses(t, index, passes - 1);
    }
  }

  /**
   * A card of a recognised format, pulsed into an idle reader with a handler,
   * reaches the handler with exactly its facility and card codes.
   */
  lemma EncodedCardReported(s: ReaderState, index: nat, bitCount: nat, facility: nat, card: nat)
    requires Inv(s) && s.bitCount == 0 && s.onCardRead.Some?
    requires IsSupportedLength(bitCount)
    requires var l := LayoutFor(bitCount).value;
             facility < Pow2(l.facStop - l.facStart) && card < Pow2(l.cardStop - l.cardStart)
    ensures Run(Feed(s, EncodeFrame(bitCount, facility, card)), index, WiegandWaitTime).events
            == [CardRead(index, s.onCardRead.value, bitCount, facility, card, false)]
  {
    var frame := EncodeFrame(bitCount, facility, card);
    FrameReportedAfterWait(s, index, frame, WiegandWaitTime);
    DecodeEncode(bitCount, facility, card);
  }
}
