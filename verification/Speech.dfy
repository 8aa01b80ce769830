/** The rate-limited chunker: stream events fill a buffer that a timed loop empties. */
module Speech {

  type Byte = b: int | 0 <= b < 256

  datatype Settled = Pending | Resolved | Rejected

  /** `sent` records every byte the stream has delivered, `received` those that went into the buffer. */
  datatype State = State(
    buffer: seq<Byte>,
    isEnded: bool,
    aborted: bool,
    done: bool,
    settled: Settled,
    emitted: seq<seq<Byte>>,
    sent: seq<Byte>,
    received: seq<Byte>)

  /** `Turn` is one pass of the loop, from its test up to the next sleep, pass or return. */
  datatype Event = Data(chunk: seq<Byte>) | End | Error | Abort | Turn

  /** The first settlement of a promise is the one that counts. */
  function Settle(now: Settled, s: Settled): Settled { if now == Pending then s else now }

  /** The loop starts before any event; a signal that is already aborted makes its first pass return. */
  function Start(aborted: bool): State {
    State([], false, aborted, aborted, if aborted then Rejected else Pending, [], [], [])
  }

  /** A stream delivers no data after its end. */
  predicate Enabled(st: State, e: Event) { e.Data? ==> !st.isEnded }

  function LoopPass(st: State, target: nat): State {
    if st.done then st
    else if st.isEnded && st.buffer == [] then st.(done := true, settled := Settle(st.settled, Resolved))
    else if st.aborted then st.(done := true, settled := Settle(st.settled, Rejected))
    else if |st.buffer| >= target then st.(emitted := st.emitted + [st.buffer[..target]], buffer := st.buffer[target..])
    else if st.isEnded then st.(emitted := st.emitted + [st.buffer], buffer := [])
    else st
  }

  function Step(st: State, e: Event, target: nat): State {
    match e
    case Data(chunk) =>
      if st.aborted then st.(sent := st.sent + chunk)
      else st.(sent := st.sent + chunk, received := st.received + chunk, buffer := st.buffer + chunk)
    case End => st.(isEnded := true)
    case Error => st.(settled := Settle(st.settled, Rejected))
    case Abort => if st.aborted then st else st.(aborted := true, settled := Settle(st.settled, Rejected))
    case Turn => LoopPass(st, target)
  }

  /** The variables the callbacks and the loop share. */
  class Processor {
    const targetChunkSize: nat
    var buffer: seq<Byte>
    var isEnded: bool
    var aborted: bool
    var done: bool
    var settled: Settled
    var emitted: seq<seq<Byte>>
    ghost var sent: seq<Byte>
    ghost var received: seq<Byte>

    ghost function St(): State
      reads this
    {
      State(buffer, isEnded, aborted, done, settled, emitted, sent, received)
    }

    constructor (targetChunkSize: nat, aborted: bool)
      ensures this.targetChunkSize == targetChunkSize && St() == Start(aborted)
    {
      this.targetChunkSize := targetChunkSize;
      buffer, isEnded, this.aborted, emitted, sent, received := [], false, aborted, [], [], [];
      done, settled := aborted, if aborted then Rejected else Pending;
    }

    method OnData(chunk: seq<Byte>)
      requires Enabled(St(), Data(chunk))
      modifies this
      ensures St() == Step(old(St()), Data(chunk), targetChunkSize)
    {
      sent := sent + chunk;
      if !aborted {
        buffer := buffer + chunk;
        received := received + chunk;
      }
    }

    method OnEnd()
      modifies this
      ensures St() == Step(old(St()), End, targetChunkSize)
    {
      isEnded := true;
    }

    method Reject()
      modifies this`settled
      ensures settled == Settle(old(settled), Rejected)
    {
      if settled == Pending { settled := Rejected; }
    }

    method OnError()
      modifies this
      ensures St() == Step(old(St()), Error, targetChunkSize)
    {
      Reject();
    }

    /** The signal's listener; a signal fires once. */
    method OnAbort()
      modifies this
      ensures St() == Step(old(St()), Abort, targetChunkSize)
    {
      if !aborted {
        aborted := true;
        Reject();
      }
    }

    /** One pass of the loop. */
    method ProcessChunks()
      modifies this
      ensures St() == Step(old(St()), Turn, targetChunkSize)
    {
      if done { return; }
      if !isEnded || |buffer| > 0 {
        if aborted {
          Reject();
          done := true;
          return;
        }
        if |buffer| >= targetChunkSize {
          var chunk := buffer[..targetChunkSize];
          buffer := buffer[targetChunkSize..];
          emitted := emitted + [chunk];
        } else if isEnded && |buffer| > 0 {
          emitted := emitted + [buffer];
          buffer := [];
        }
      } else {
        done := true;
        if settled == Pending { settled := Resolved; }
      }
    }
  }

  // ---- runs ----

  function Run(st: State, events: seq<Event>, target: nat): State
    decreases |events|
  {
    if events == [] then st else Run(Step(st, events[0], target), events[1..], target)
  }

  /** Every event finds the stream in a state in which it can happen. */
  predicate Possible(st: State, events: seq<Event>, target: nat)
    decreases |events|
  {
    events == [] || (Enabled(st, events[0]) && Possible(Step(st, events[0], target), events[1..], target))
  }

  function Bytes(chunks: seq<seq<Byte>>): seq<Byte> {
    if chunks == [] then [] else Bytes(chunks[..|chunks| - 1]) + chunks[|chunks| - 1]
  }

  /** The bytes in pieces of the target size, the last one possibly shorter. */
  function Chunks(bytes: seq<Byte>, target: nat): seq<seq<Byte>>
    requires target > 0
    decreases |bytes|
  {
    if bytes == [] then []
    else if |bytes| <= target then [bytes]
    else [bytes[..target]] + Chunks(bytes[target..], target)
  }

  /** All chunks have the target size, except a last one once the end is reached and the buffer empty. */
  predicate FullChunks(st: State, target: nat) {
    && (forall i | 0 <= i < |st.emitted| - 1 :: |st.emitted[i]| == target)
    && (st.emitted != [] ==>
          var last := |st.emitted[|st.emitted| - 1]|;
          last == target || (0 < last < target && st.isEnded && st.buffer == []))
  }

  /** Nothing is lost, made up or reordered between the stream and the listener. */
  predicate Conserved(st: State) { Bytes(st.emitted) + st.buffer == st.received }

  /** How aborting, ending and the promise hang together. */
  predicate Settlement(st: State) {
    && (!st.aborted ==> st.sent == st.received)
    && (st.aborted ==> st.settled != Pending)
    && (st.settled == Resolved ==> st.done && st.isEnded && st.buffer == [] && st.sent == st.received)
    && (st.done && !st.aborted ==> st.isEnded && st.buffer == [] && st.settled != Pending)
  }

  /** What every reachable state satisfies. */
  predicate Inv(st: State, target: nat) { Conserved(st) && FullChunks(st, target) && Settlement(st) }

  lemma BytesAppend(chunks: seq<seq<Byte>>, chunk: seq<Byte>)
    ensures Bytes(chunks + [chunk]) == Bytes(chunks) + chunk
  {
    assert (chunks + [chunk])[..|chunks|] == chunks;
  }

  lemma Regroup(a: seq<Byte>, b: seq<Byte>, c: seq<Byte>)
    ensures a + (b + c) == (a + b) + c
  {
  }

  lemma StepConserves(st: State, e: Event, target: nat)
    requires Conserved(st)
    ensures Conserved(Step(st, e, target))
  {
    hide Bytes;
    var next := Step(st, e, target);
    match e
    case Data(chunk) => Regroup(Bytes(st.emitted), st.buffer, chunk);
    case Turn =>
      if |next.emitted| > |st.emitted| {
        var chunk := next.emitted[|st.emitted|];
        assert next.emitted == st.emitted + [chunk];
        BytesAppend(st.emitted, chunk);
        assert st.buffer == chunk + next.buffer;
        Regroup(Bytes(st.emitted), chunk, next.buffer);
      }
    case _ =>
  }

  lemma StepKeepsFullChunks(st: State, e: Event, target: nat)
    requires FullChunks(st, target) && Enabled(st, e)
    ensures FullChunks(Step(st, e, target), target)
  {
    hide Bytes;
  }

  lemma StepKeepsSettlement(st: State, e: Event, target: nat)
    requires Settlement(st) && Enabled(st, e)
    ensures Settlement(Step(st, e, target))
  {
  }

  lemma StepKeepsInv(st: State, e: Event, target: nat)
    requires Inv(st, target) && Enabled(st, e)
    ensures Inv(Step(st, e, target), target)
  {
    hide Step;
    hide Conserved;
    hide FullChunks;
    hide Settlement;
    StepConserves(st, e, target);
    StepKeepsFullChunks(st, e, target);
    StepKeepsSettlement(st, e, target);
  }

  lemma {:induction false} RunKeepsInv(st: State, events: seq<Event>, target: nat)
    requires Inv(st, target) && Possible(st, events, target)
    ensures Inv(Run(st, events, target), target)
    decreases |events|
  {
    hide Inv;
    hide Step;
    if events != [] {
      StepKeepsInv(st, events[0], target);
      RunKeepsInv(Step(st, events[0], target), events[1..], target);
    }
  }

  // ---- what a run has done ----

  lemma {:induction false} BytesOfChunks(bytes: seq<Byte>, target: nat)
    requires target > 0
    ensures Bytes(Chunks(bytes, target)) == bytes
    decreases |bytes|
  {
    if |bytes| > target {
      BytesOfChunks(bytes[target..], target);
      BytesPrepend(bytes[..target], Chunks(bytes[target..], target));
    } else if bytes != [] {
      BytesAppend([], bytes);
      assert [] + [bytes] == [bytes];
    }
  }

  lemma {:induction false} BytesPrepend(first: seq<Byte>, rest: seq<seq<Byte>>)
    ensures Bytes([first] + rest) == first + Bytes(rest)
    decreases |rest|
  {
    var all := [first] + rest;
    if rest == [] {
      assert all == [first] && all[..0] == [];
    } else {
      assert all[..|all| - 1] == [first] + rest[..|rest| - 1];
      BytesPrepend(first, rest[..|rest| - 1]);
    }
  }

  /** Chunks of the target size, except a shorter but not empty last one, are determined by their bytes. */
  lemma {:induction false} ChunksAreUnique(chunks: seq<seq<Byte>>, target: nat)
    requires target > 0
    requires forall i | 0 <= i < |chunks| - 1 :: |chunks[i]| == target
    requires chunks != [] ==> 0 < |chunks[|chunks| - 1]| <= target
    ensures chunks == Chunks(Bytes(chunks), target)
    decreases |chunks|
  {
    if |chunks| == 1 {
      assert chunks[..0] == [] && Bytes(chunks) == chunks[0];
    } else if |chunks| > 1 {
      var first, rest := chunks[0], chunks[1..];
      assert chunks == [first] + rest;
      BytesPrepend(first, rest);
      ChunksAreUnique(rest, target);
      var bytes := Bytes(chunks);
      assert bytes[..target] == first && bytes[target..] == Bytes(rest);
      assert rest[..|rest| - 1] + [rest[|rest| - 1]] == rest;
      BytesAppend(rest[..|rest| - 1], rest[|rest| - 1]);
    }
  }

  lemma StartInv(aborted: bool, target: nat)
    ensures Inv(Start(aborted), target)
  {
  }

  /** At every moment, whatever happened: what was emitted is the start of what was received, and the rest is
      in the buffer; without an abort that is all the stream has sent. */
  lemma EmittedIsPrefix(aborted: bool, events: seq<Event>, target: nat)
    requires Possible(Start(aborted), events, target)
    ensures var st := Run(Start(aborted), events, target);
            && Bytes(st.emitted) + st.buffer == st.received
            && (!st.aborted ==> st.received == st.sent)
  {
    hide Step;
    hide Start;
    hide Run;
    StartInv(aborted, target);
    RunKeepsInv(Start(aborted), events, target);
  }

  /** A promise that resolves, or a loop that finishes without an abort, has emitted all bytes sent, in
      chunks that depend on those bytes alone. */
  lemma CompletionEmitsEverything(aborted: bool, events: seq<Event>, target: nat)
    requires target > 0 && Possible(Start(aborted), events, target)
    requires var st := Run(Start(aborted), events, target); st.settled == Resolved || (st.done && !st.aborted)
    ensures var st := Run(Start(aborted), events, target);
            Bytes(st.emitted) == st.sent && st.emitted == Chunks(st.sent, target)
  {
    hide Step;
    hide Start;
    var st := Run(Start(aborted), events, target);
    StartInv(aborted, target);
    RunKeepsInv(Start(aborted), events, target);
    assert Bytes(st.emitted) + [] == Bytes(st.emitted);
    ChunksAreUnique(st.emitted, target);
  }

  // ---- the loop finishes ----

  function Turns(st: State, n: nat, target: nat): State
    decreases n
  {
    if n == 0 then st else Turns(LoopPass(st, target), n - 1, target)
  }

  /** Once the stream has ended, a loop that is not aborted empties its buffer and settles the promise. */
  lemma {:induction false} LoopDrains(st: State, target: nat)
    requires st.isEnded && !st.aborted && !st.done && target > 0
    ensures exists n: nat :: Turns(st, n, target).done && Turns(st, n, target).settled == Settle(st.settled, Resolved)
    decreases |st.buffer|
  {
    var next := LoopPass(st, target);
    if st.buffer == [] {
      assert Turns(next, 0, target) == next;
      assert Turns(st, 1, target) == next;
    } else {
      LoopDrains(next, target);
      var n: nat :| Turns(next, n, target).done && Turns(next, n, target).settled == Settle(next.settled, Resolved);
      assert Turns(st, n + 1, target) == Turns(next, n, target);
    }
  }

  /** A target size of zero emits empty chunks for ever. */
  lemma {:induction false} ZeroTargetNeverDrains(st: State, n: nat)
    requires !st.aborted && !st.done && st.buffer != []
    ensures Turns(st, n, 0).buffer == st.buffer && !Turns(st, n, 0).done
    decreases n
  {
    if n > 0 {
      assert st.buffer[0..] == st.buffer;
      ZeroTargetNeverDrains(LoopPass(st, 0), n - 1);
    }
  }

  /** The loop finishes exactly when the target size is not zero or nothing is left to emit. */
  lemma LoopDrainsIff(st: State, target: nat)
    requires st.isEnded && !st.aborted && !st.done
    ensures (exists n: nat :: Turns(st, n, target).done) <==> target > 0 || st.buffer == []
  {
    if target > 0 {
      LoopDrains(st, target);
    } else if st.buffer == [] {
      assert Turns(LoopPass(st, target), 0, target).done;
      assert Turns(st, 1, target).done;
    } else {
      forall n: nat ensures !Turns(st, n, target).done { ZeroTargetNeverDrains(st, n); }
    }
  }

  /** After an abort nothing more is emitted or received, whatever happens. */
  lemma {:induction false} AbortStopsEverything(st: State, events: seq<Event>, target: nat)
    requires st.aborted
    ensures var r := Run(st, events, target);
            r.aborted && r.emitted == st.emitted && r.buffer == st.buffer && r.received == st.received
    decreases |events|
  {
    if events != [] { AbortStopsEverything(Step(st, events[0], target), events[1..], target); }
  }
}
