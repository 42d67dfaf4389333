/**
 * `HidProxWeigandClass`: the registry of attached readers, `addReader`, and
 * the polling entry point `loop`.
 */
module ReaderRegistry {
  import opened Options
  import opened WiegandConfig
  import opened ReaderSpec
  import opened ProxReader

  class Registry {
    /** `SUPPORTED_READERS` of the board; 0 means no limit. */
    const cap: nat
    /** The readers in registration order; position k is the k-th `addReader` that succeeded. */
    var readers: seq<Reader>
    /** Every handler call made by `loop` so far, in order. */
    var log: seq<CardRead>
    /** The readers and their bit buffers. */
    ghost var Repr: set<object>
    /** Position of each reader, and minus one minus the position of its buffer; keeps them apart. */
    ghost var slot: map<object, int>
    /** The state of each reader as a value, in registration order. */
    ghost var states: seq<ReaderState>

    /**
     * The shape of the registry: within the cap, every reader and its buffer
     * tracked in Repr, no reader or buffer shared between two positions.
     */
    ghost predicate Wired()
      reads this`readers, this`Repr, this`slot
    {
      && (cap > 0 ==> |readers| <= cap) && this !in Repr
      && (forall i :: 0 <= i < |readers| ==>
            && readers[i] in Repr && readers[i].databits in Repr
            && readers[i].databits.Length == MaxReadBits
            && readers[i] in slot && slot[readers[i]] == i
            && readers[i].databits in slot && slot[readers[i].databits] == -1 - i)
    }

    /**
     * The shape plus every reader's own invariant, with `states` holding
     * each reader's fields as a value.
     */
    ghost predicate Valid()
      reads this`readers, this`Repr, this`slot, this`states, Repr
    {
      && Wired()
      && |states| == |readers| && AllInv(states)
      && forall i {:trigger readers[i]} :: 0 <= i < |readers| ==> readers[i].Snapshot() == states[i]
    }

    /** The manager's constructor: no reader yet. */
    constructor (board: Board)
      ensures Valid() && cap == SupportedReaders(board)
      ensures readers == [] && states == [] && log == [] && Repr == {}
    {
      cap := SupportedReaders(board);
      readers := [];
      log := [];
      Repr := {};
      slot := map[];
      states := [];
    }

    /**
     * `addReader`: refuses (NULL) when the board's cap is nonzero and already
     * reached; otherwise appends a reader with the given pins and handler
     * whose countdown starts at the full wait.
     */
    method AddReader(pinData0: int, pinData1: int, onCardRead: Option<CallbackId>) returns (added: Reader?)
      requires Valid()
      modifies this
      ensures Valid() && log == old(log) && fresh(Repr - old(Repr))
      ensures added == null <==> cap > 0 && old(|readers|) + 1 > cap
      ensures added == null ==> readers == old(readers) && states == old(states)
      ensures added != null ==>
                && fresh(added) && fresh(added.databits) && readers == old(readers) + [added]
                && states == old(states) + [Registered(pinData0, pinData1, onCardRead)]
    {
      if cap > 0 && |readers| + 1 > cap {
        return null;
      }
      var r := new Reader.FromZeroedMemory();
      r.Attach(pinData0, pinData1, onCardRead);
      Append(r);
      added := r;
    }

    /** Places a reader at the next position: `setPosition(_readerCount)`, then `_readerCount++`. */
    method Append(r: Reader)
      requires Valid() && (cap > 0 ==> |readers| < cap)
      requires r.Valid() && r !in Repr && r.databits !in Repr
      modifies this
      ensures Valid() && log == old(log)
      ensures readers == old(readers) + [r] && states == old(states) + [r.Snapshot()]
      ensures Repr == old(Repr) + {r, r.databits}
    {
      readers := readers + [r];
      Repr := Repr + {r, r.databits};
      slot := slot[r := |readers| - 1][r.databits := -|readers|];
      states := states + [r.Snapshot()];
    }

    /**
     * `ISR_Data0` of the reader at `index`, run by its DATA0 interrupt between
     * two passes: that reader counts a 0 bit, every other reader is unchanged.
     */
    method Pulse0(index: nat)
      requires Valid() && index < |readers| && states[index].bitCount < MaxBitCount
      modifies this`states, readers[index]
      ensures Valid() && log == old(log)
      ensures states == old(states)[index := OnData0(old(states)[index])]
    {
      readers[index].IsrData0();
      states := states[index := readers[index].Snapshot()];
      assert forall j :: 0 <= j < |readers| && j != index ==>
               readers[j] != readers[index] && readers[j].databits != readers[index].databits;
    }

    /**
     * `ISR_Data1` of the reader at `index`, run by its DATA1 interrupt between
     * two passes: that reader stores a 1 bit, every other reader is unchanged.
     * There must be room for the bit, as the source does not check.
     */
    method Pulse1(index: nat)
      requires Valid() && index < |readers| && states[index].bitCount < MaxReadBits
      modifies this`states, readers[index], readers[index].databits
      ensures Valid() && log == old(log)
      ensures states == old(states)[index := OnData1(old(states)[index])]
    {
      readers[index].IsrData1();
      states := states[index := readers[index].Snapshot()];
      assert forall j :: 0 <= j < |readers| && j != index ==>
               readers[j] != readers[index] && readers[j].databits != readers[index].databits;
    }

    /**
     * Midway through a pass that started from `start` with `logged` as the
     * handler calls so far: the first `n` readers have been polled.
     */
    ghost predicate Polled(start: seq<ReaderState>, n: nat, logged: seq<CardRead>)
      reads this`states, this`log
    {
      && AllInv(start) && |start| == |states| && n <= |states|
      && states == Scan(start, n).states && log == logged + Scan(start, n).events
    }

    /**
     * The body of `loop` for position `index`: `setPosition(index)`, then
     * the countdown, decoding, handler call and reset of that reader. The
     * pass advances by one reader; no other reader changes.
     */
    method PollAt(index: nat, ghost start: seq<ReaderState>, ghost logged: seq<CardRead>)
      requires Valid() && Polled(start, index, logged) && index < |readers|
      modifies this`log, this`states, readers[index], readers[index].databits
      ensures Valid() && Polled(start, index + 1, logged)
    {
      ScanNext(start, index);
      var fired := PollReader(index);
      ghost var e := Scan(start, index).events;
      assert logged + e + Calls(fired) == logged + (e + Calls(fired));
      log := log + Calls(fired);
    }

    /** The reader at `index` takes one step; the others keep their state. */
    method PollReader(index: nat) returns (fired: Option<CardRead>)
      requires Valid() && index < |readers|
      modifies this`states, readers[index], readers[index].databits
      ensures Valid()
      ensures states == old(states)[index := Step(old(states)[index], index).state]
      ensures fired == Step(old(states)[index], index).fired
    {
      fired := readers[index].Poll(index);
      states := states[index := readers[index].Snapshot()];
      assert forall j :: 0 <= j < |readers| && j != index ==>
               readers[j] != readers[index] && readers[j].databits != readers[index].databits;
    }

    /**
     * `loop`: one pass over every reader in registration order; the handler
     * calls are appended to `log`.
     */
    method Loop()
      requires Valid()
      modifies this`log, this`states, Repr
      ensures Valid() && readers == old(readers) && Repr == old(Repr)
      ensures states == Scan(old(states), |readers|).states
      ensures log == old(log) + Scan(old(states), |readers|).events
    {
      var i := 0;
      while i < |readers|
        invariant Valid() && Polled(old(states), i, old(log)) && i <= |readers|
      {
        PollAt(i, old(states), old(log));
        i := i + 1;
      }
    }
  }
}
