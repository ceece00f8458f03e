/** The asynchronous transfers of the benchmark (AVR/libusb/examples/benchmark.c): a ring of
    transfer handles, refilled and waited for in order, whatever libusb answers. */
module TransferRing {
  import opened Arithmetic

  const MAX_OUTSTANDING_TRANSFERS := 10

  /** INC_ROLL */
  function IncRoll(i: nat, n: nat): nat { if i + 1 >= n then 0 else i + 1 }

  /** The slot of the k-th transfer. */
  function SlotOf(k: nat, n: nat): (slot: nat)
    requires n > 0
    ensures slot < n
  {
    k % n
  }

  lemma StartsAtZero(n: nat)
    requires n > 0
    ensures SlotOf(0, n) == 0
  {}

  lemma Roll(k: nat, n: nat)
    requires n > 0
    ensures SlotOf(k + 1, n) == IncRoll(SlotOf(k, n), n)
  {
    var q, r := k / n, k % n;
    if r + 1 < n {
      Quotient(k + 1, q, r + 1, n);
    } else {
      Quotient(k + 1, q + 1, 0, n);
    }
  }

  lemma NextSlot(i: nat, j: nat, size: nat)
    requires i < j
    ensures i * size + size <= j * size
  {
    Monotone(i + 1, j, size);
  }

  /** The end of a transfer: the slot, and which successful submit it was. */
  datatype Completion = Completion(slot: nat, transfer: nat)

  /** How many of the results are successes. */
  function Successes(results: seq<int>): nat
  {
    if results == [] then 0
    else Successes(results[..|results| - 1]) + (if results[|results| - 1] >= 0 then 1 else 0)
  }

  lemma NoSuccess()
    ensures Successes([]) == 0
  {}

  lemma OneMoreResult(results: seq<int>, ret: int)
    ensures Successes(results + [ret]) == Successes(results) + if ret >= 0 then 1 else 0
  {
    assert (results + [ret])[..|results|] == results;
  }

  class TransferParam {
    const BufferCount: nat
    const BufferSize: nat

    // TransferHandles[].Context, .InUse and .Data; Data as an offset into Buffer
    const hasContext: array<bool>
    const inUse: array<bool>
    const data: array<nat>

    var TransferHandleNextIndex: nat
    var TransferHandleWaitIndex: nat
    var OutstandingTransferCount: nat

    /** What the calls into libusb return, one after another. */
    const usb: nat -> int
    var calls: nat

    ghost var submitted: seq<nat>        // slots, in the order of successful submits
    ghost var reaped: seq<Completion>    // in the order of successful reaps
    ghost var cancelled: seq<Completion>
    ghost var transfer: seq<nat>         // which submit a slot was last used for

    /** How far a slot is behind the oldest outstanding transfer. */
    ghost function Behind(i: nat): int
      reads `TransferHandleWaitIndex
    {
      if i >= TransferHandleWaitIndex then i - TransferHandleWaitIndex else i + BufferCount - TransferHandleWaitIndex
    }

    ghost function Around(i: int): int { if i >= BufferCount then i - BufferCount else i }

    ghost predicate Shape()
    {
      && 1 <= BufferCount <= MAX_OUTSTANDING_TRANSFERS
      && hasContext.Length == BufferCount && inUse.Length == BufferCount && data.Length == BufferCount
      && hasContext != inUse
    }

    /** The handles in use are the cyclic window of OutstandingTransferCount slots from
        TransferHandleWaitIndex on, ending before TransferHandleNextIndex. */
    ghost predicate Window()
      reads `TransferHandleNextIndex, `TransferHandleWaitIndex, `OutstandingTransferCount, inUse
    {
      && Shape()
      && TransferHandleNextIndex < BufferCount && TransferHandleWaitIndex < BufferCount
      && OutstandingTransferCount <= BufferCount
      && TransferHandleNextIndex == Around(TransferHandleWaitIndex + OutstandingTransferCount)
      && forall i :: 0 <= i < BufferCount ==> (inUse[i] <==> Behind(i) < OutstandingTransferCount)
    }

    /** A handle in use has a context, and every context its own part of the buffer. */
    ghost predicate Contexts()
      reads inUse, hasContext, data
    {
      && Shape()
      && (forall i :: 0 <= i < BufferCount && inUse[i] ==> hasContext[i])
      && (forall i :: 0 <= i < BufferCount && hasContext[i] ==> data[i] == i * BufferSize)
    }

    /** First in, first out. */
    ghost predicate History()
      reads this, inUse
    {
      && Shape() && |transfer| == BufferCount
      && |submitted| == |reaped| + OutstandingTransferCount
      && SlotOf(|submitted|, BufferCount) == TransferHandleNextIndex
      && SlotOf(|reaped|, BufferCount) == TransferHandleWaitIndex
      && (forall k :: 0 <= k < |submitted| ==> submitted[k] == SlotOf(k, BufferCount))
      && (forall k :: 0 <= k < |reaped| ==> reaped[k] == Completion(SlotOf(k, BufferCount), k))
      && (forall i :: 0 <= i < BufferCount && inUse[i] ==> transfer[i] == |reaped| + Behind(i))
    }

    ghost predicate Valid()
      reads this, inUse, hasContext, data
    {
      Window() && Contexts() && History()
    }

    constructor (bufferCount: nat, bufferSize: nat, usb: nat -> int)
      requires 1 <= bufferCount <= MAX_OUTSTANDING_TRANSFERS
      ensures Valid() && submitted == [] && reaped == [] && cancelled == []
      ensures BufferCount == bufferCount && BufferSize == bufferSize
    {
      hide SlotOf;
      BufferCount, BufferSize, this.usb := bufferCount, bufferSize, usb;
      hasContext := new bool[bufferCount](_ => false);
      inUse := new bool[bufferCount](_ => false);
      data := new nat[bufferCount](_ => 0);
      TransferHandleNextIndex, TransferHandleWaitIndex, OutstandingTransferCount, calls := 0, 0, 0, 0;
      submitted, reaped, cancelled, transfer := [], [], [], seq(bufferCount, _ => 0);
      new;
      StartsAtZero(bufferCount);
    }

    /** None of the libusb calls from one count to another failed. */
    ghost predicate NoneFailed(from: nat, to: nat)
    {
      forall c :: from <= c < to ==> usb(c) >= 0
    }

    // ---- libusb ----

    method UsbSetupAsync(slot: nat) returns (ret: int)
      requires Shape() && slot < BufferCount && !hasContext[slot]
      modifies `calls, hasContext
      ensures calls == old(calls) + 1 && ret == usb(old(calls))
      ensures hasContext[slot] <==> ret >= 0
      ensures forall i :: 0 <= i < BufferCount && i != slot ==> hasContext[i] == old(hasContext[i])
    {
      ret := usb(calls);
      calls := calls + 1;
      if ret >= 0 { hasContext[slot] := true; }
    }

    /** Only a handle with a context that is not in use may be submitted. */
    method UsbSubmitAsync(slot: nat) returns (ret: int)
      requires Shape() && slot < BufferCount && hasContext[slot] && !inUse[slot] && data[slot] == slot * BufferSize
      requires |transfer| == BufferCount
      modifies `calls, `submitted, `transfer
      ensures calls == old(calls) + 1 && ret == usb(old(calls))
      ensures submitted == if ret >= 0 then old(submitted) + [slot] else old(submitted)
      ensures transfer == if ret >= 0 then old(transfer)[slot := |old(submitted)|] else old(transfer)
    {
      ret := usb(calls);
      calls := calls + 1;
      if ret >= 0 {
        transfer := transfer[slot := |submitted|];
        submitted := submitted + [slot];
      }
    }

    /** Only a handle in use may be waited for. */
    method UsbReapAsyncNocancel(slot: nat) returns (ret: int)
      requires Shape() && slot < BufferCount && hasContext[slot] && inUse[slot] && |transfer| == BufferCount
      modifies `calls, `reaped
      ensures calls == old(calls) + 1 && ret == usb(old(calls))
      ensures reaped == if ret >= 0 then old(reaped) + [Completion(slot, transfer[slot])] else old(reaped)
    {
      ret := usb(calls);
      calls := calls + 1;
      if ret >= 0 { reaped := reaped + [Completion(slot, transfer[slot])]; }
    }

    method UsbCancelAsync(slot: nat) returns (ret: int)
      requires Shape() && slot < BufferCount && hasContext[slot] && inUse[slot] && |transfer| == BufferCount
      modifies `calls, `cancelled
      ensures cancelled == old(cancelled) + [Completion(slot, transfer[slot])]
      ensures calls == old(calls) + 1 && ret == usb(old(calls))
    {
      ret := usb(calls);
      calls := calls + 1;
      cancelled := cancelled + [Completion(slot, transfer[slot])];
    }

    // ---- TransferAsync ----

    /** The next handle gets a context if it has none. */
    method Prepare(handle: nat) returns (ret: int)
      requires Valid() && handle < BufferCount && !inUse[handle]
      modifies `calls, hasContext, data
      ensures Valid() && (hasContext[handle] <==> ret >= 0)
      ensures old(calls) <= calls && (ret >= 0 <==> NoneFailed(old(calls), calls))
    {
      hide SlotOf;
      ret := 0;
      if !hasContext[handle] {
        data[handle] := handle * BufferSize;
        ret := UsbSetupAsync(handle);
      }
    }

    /** The bookkeeping behind a successful submit. */
    method Submitted(handle: nat)
      requires Window() && Contexts() && OutstandingTransferCount < BufferCount
      requires handle == TransferHandleNextIndex && hasContext[handle]
      modifies inUse, `OutstandingTransferCount, `TransferHandleNextIndex
      ensures Window() && Contexts() && OutstandingTransferCount == old(OutstandingTransferCount) + 1
      ensures TransferHandleNextIndex == IncRoll(old(TransferHandleNextIndex), BufferCount)
      ensures Behind(handle) == old(OutstandingTransferCount)
      ensures forall i :: 0 <= i < BufferCount ==> (inUse[i] <==> old(inUse[i]) || i == handle)
    {
      inUse[handle] := true;
      OutstandingTransferCount := OutstandingTransferCount + 1;
      TransferHandleNextIndex := IncRoll(TransferHandleNextIndex, BufferCount);
    }

    method SubmitPrepared(handle: nat) returns (ret: int)
      requires Valid() && OutstandingTransferCount < BufferCount
      requires handle == TransferHandleNextIndex && hasContext[handle]
      modifies this, inUse
      ensures Valid() && reaped == old(reaped) && cancelled == old(cancelled)
      ensures submitted == if ret >= 0 then old(submitted) + [handle] else old(submitted)
      ensures OutstandingTransferCount == old(OutstandingTransferCount) + (if ret >= 0 then 1 else 0)
      ensures old(calls) <= calls && (ret >= 0 <==> NoneFailed(old(calls), calls))
      ensures ret < 0 ==> TransferHandleNextIndex == old(TransferHandleNextIndex)
    {
      hide Contexts, SlotOf, Window, Behind, IncRoll;
      NextIsFree();
      HasData(handle);
      ret := UsbSubmitAsync(handle);
      if ret < 0 { return; }
      Roll(|submitted| - 1, BufferCount);
      Submitted(handle);
    }

    /** The body of the loop of TransferAsync: set up the next handle if need be, submit it. */
    method SubmitNext() returns (ret: int)
      requires Valid() && OutstandingTransferCount < BufferCount
      modifies this, inUse, hasContext, data
      ensures Valid() && reaped == old(reaped) && cancelled == old(cancelled)
      ensures submitted == if ret >= 0 then old(submitted) + [old(TransferHandleNextIndex)] else old(submitted)
      ensures OutstandingTransferCount == old(OutstandingTransferCount) + (if ret >= 0 then 1 else 0)
      ensures old(calls) <= calls && (ret >= 0 <==> NoneFailed(old(calls), calls))
      ensures ret < 0 ==> TransferHandleNextIndex == old(TransferHandleNextIndex)
    {
      hide Contexts, SlotOf, History;
      NextIsFree();
      var handle := TransferHandleNextIndex;
      ret := Prepare(handle);
      if ret >= 0 { ret := SubmitPrepared(handle); }
    }

    lemma NextIsFree()
      requires Window() && OutstandingTransferCount < BufferCount
      ensures !inUse[TransferHandleNextIndex]
    {}

    lemma HasData(handle: nat)
      requires Contexts() && handle < BufferCount && hasContext[handle]
      ensures data[handle] == handle * BufferSize
    {}

    /** The bookkeeping behind a successful reap. */
    method Reaped(handle: nat)
      requires Window() && Contexts() && OutstandingTransferCount > 0 && handle == TransferHandleWaitIndex
      modifies inUse, `OutstandingTransferCount, `TransferHandleWaitIndex
      ensures Window() && Contexts() && OutstandingTransferCount == old(OutstandingTransferCount) - 1
      ensures TransferHandleWaitIndex == IncRoll(old(TransferHandleWaitIndex), BufferCount)
      ensures forall i :: 0 <= i < BufferCount && inUse[i] ==> old(inUse[i]) && Behind(i) == old(Behind(i)) - 1
    {
      inUse[handle] := false;
      OutstandingTransferCount := OutstandingTransferCount - 1;
      TransferHandleWaitIndex := IncRoll(TransferHandleWaitIndex, BufferCount);
    }

    /** The second half of TransferAsync: wait for the oldest outstanding transfer. */
    method ReapOldest() returns (ret: int, handle: nat)
      requires Valid() && OutstandingTransferCount > 0
      modifies this, inUse
      ensures Valid() && submitted == old(submitted) && cancelled == old(cancelled)
      ensures handle == old(TransferHandleWaitIndex) && handle < BufferCount
      ensures reaped == if ret >= 0 then old(reaped) + [Completion(handle, |old(reaped)|)] else old(reaped)
      ensures OutstandingTransferCount == old(OutstandingTransferCount) - (if ret >= 0 then 1 else 0)
      ensures old(calls) <= calls && (ret >= 0 <==> NoneFailed(old(calls), calls))
      ensures ret < 0 ==> TransferHandleWaitIndex == old(TransferHandleWaitIndex)
    {
      hide Contexts, SlotOf, Window, Behind, IncRoll;
      OldestIsInUse();
      handle := TransferHandleWaitIndex;
      ret := UsbReapAsyncNocancel(handle);
      if ret < 0 { return; }
      Roll(|reaped| - 1, BufferCount);
      Reaped(handle);
    }

    lemma OldestIsInUse()
      requires Valid() && OutstandingTransferCount > 0
      ensures TransferHandleWaitIndex < BufferCount && inUse[TransferHandleWaitIndex]
      ensures hasContext[TransferHandleWaitIndex] && transfer[TransferHandleWaitIndex] == |reaped|
    {}

    /** TransferAsync: fill the ring up, then wait for the oldest transfer.  The handle that
        comes back with a success is the one that was reaped; it succeeds exactly if none of its
        libusb calls fails. */
    method TransferAsync() returns (ret: int, handle: nat)
      requires Valid()
      modifies this, inUse, hasContext, data
      ensures Valid() && old(submitted) <= submitted && cancelled == old(cancelled)
      ensures ret >= 0 ==>
        && handle < BufferCount && reaped == old(reaped) + [Completion(handle, |old(reaped)|)]
        && OutstandingTransferCount == BufferCount - 1
      ensures ret < 0 ==> reaped == old(reaped)
      ensures ret < 0 ==>
        handle == if OutstandingTransferCount < BufferCount then TransferHandleNextIndex else TransferHandleWaitIndex
      ensures old(calls) <= calls && (ret >= 0 <==> NoneFailed(old(calls), calls))
    {
      hide Contexts, SlotOf, History;
      ret, handle := 0, TransferHandleNextIndex;
      while OutstandingTransferCount < BufferCount
        invariant Valid() && old(submitted) <= submitted && cancelled == old(cancelled) && reaped == old(reaped)
        invariant old(calls) <= calls && NoneFailed(old(calls), calls)
        decreases BufferCount - OutstandingTransferCount
      {
        handle := TransferHandleNextIndex;
        ret := SubmitNext();
        if ret < 0 { return; }
      }
      ret, handle := ReapOldest();
    }

    // ---- TransferThreadProc ----

    /** A transfer that the cleanup has cancelled. */
    ghost predicate WasCancelled(k: nat)
      reads `cancelled
    {
      exists c :: c in cancelled && c.transfer == k
    }

    /** The loop of the cleanup: what is in use is cancelled, once, in the order of the slots,
        and every context is freed. */
    method FreeAll()
      requires Valid() && cancelled == []
      modifies `calls, `cancelled, inUse, hasContext
      ensures forall i :: 0 <= i < BufferCount ==> !inUse[i] && !hasContext[i]
      ensures forall i :: 0 <= i < BufferCount && old(inUse[i]) ==> Completion(i, transfer[i]) in cancelled
      ensures forall c :: c in cancelled ==>
        c.slot < BufferCount && old(inUse[c.slot]) && c.transfer == transfer[c.slot]
      ensures forall a, b :: 0 <= a < b < |cancelled| ==> cancelled[a].slot < cancelled[b].slot
    {
      hide Window, SlotOf, Behind;
      for i := 0 to BufferCount
        invariant forall j :: 0 <= j < i ==> !inUse[j] && !hasContext[j]
        invariant forall j :: i <= j < BufferCount ==> inUse[j] == old(inUse[j]) && hasContext[j] == old(hasContext[j])
        invariant forall j :: 0 <= j < i && old(inUse[j]) ==> Completion(j, transfer[j]) in cancelled
        invariant forall c :: c in cancelled ==> c.slot < i && old(inUse[c.slot]) && c.transfer == transfer[c.slot]
        invariant forall a, b :: 0 <= a < b < |cancelled| ==> cancelled[a].slot < cancelled[b].slot
      {
        if hasContext[i] {
          if inUse[i] {
            var ret := UsbCancelAsync(i);
            inUse[i] := false;
          }
          hasContext[i] := false;
        }
      }
    }

    /** The end of TransferThreadProc.  Every transfer that was submitted has now been reaped or
        cancelled, and none both. */
    method Cleanup()
      requires Valid() && cancelled == []
      modifies `calls, `cancelled, inUse, hasContext
      ensures forall i :: 0 <= i < BufferCount ==> !inUse[i] && !hasContext[i]
      ensures forall k :: |reaped| <= k < |submitted| ==> WasCancelled(k)
      ensures forall c :: c in cancelled ==> |reaped| <= c.transfer < |submitted|
      ensures forall a, b :: 0 <= a < b < |cancelled| ==> cancelled[a].slot < cancelled[b].slot
    {
      hide SlotOf;
      ghost var outstanding := set i | 0 <= i < BufferCount && inUse[i];
      assert forall k :: |reaped| <= k < |submitted| ==> SlotInUse(k) in outstanding && transfer[SlotInUse(k)] == k;
      FreeAll();
      forall k | |reaped| <= k < |submitted| ensures WasCancelled(k) {
        assert Completion(SlotInUse(k), k) in cancelled;
      }
    }

    ghost function SlotInUse(k: int): int
      reads `TransferHandleWaitIndex, `reaped
    {
      Around(TransferHandleWaitIndex + k - |reaped|)
    }

    /** The thread: transfers until something stops it, then the cleanup.  `results` are what
        TransferAsync returned, round by round: it is called until `stop` says so, and each
        success is one transfer reaped. */
    method TransferThreadProc(stop: nat -> bool, most: nat) returns (results: seq<int>)
      requires Valid() && submitted == [] && reaped == [] && cancelled == []
      modifies this, inUse, hasContext, data
      ensures forall i :: 0 <= i < BufferCount ==> !inUse[i] && !hasContext[i]
      ensures forall k :: 0 <= k < |submitted| ==> submitted[k] == SlotOf(k, BufferCount)
      ensures forall k :: 0 <= k < |reaped| ==> reaped[k] == Completion(SlotOf(k, BufferCount), k)
      ensures forall k :: |reaped| <= k < |submitted| ==> WasCancelled(k)
      ensures forall c :: c in cancelled ==> |reaped| <= c.transfer < |submitted|
      ensures |results| <= most && (|results| == most || stop(|results|))
      ensures forall r :: 0 <= r < |results| ==> !stop(r)
      ensures |reaped| == Successes(results)
      ensures results != [] && results[|results| - 1] >= 0 ==> |submitted| == |reaped| + BufferCount - 1
      ensures (forall c :: usb(c) >= 0) ==> Successes(results) == |results|
    {
      hide Window, Contexts, SlotOf, Successes;
      results := [];
      NoSuccess();
      while |results| < most && !stop(|results|)
        invariant Valid() && cancelled == [] && |results| <= most
        invariant forall r :: 0 <= r < |results| ==> !stop(r)
        invariant |reaped| == Successes(results)
        invariant results != [] && results[|results| - 1] >= 0 ==> |submitted| == |reaped| + BufferCount - 1
        invariant (forall c :: usb(c) >= 0) ==> Successes(results) == |results|
      {
        var ret, handle := TransferAsync();
        OneMoreResult(results, ret);
        results := results + [ret];
      }
      Cleanup();
    }

    /** Transfers that are set up in different slots never share a byte of the buffer, which has
        room for all of them. */
    lemma SeparateBuffers(i: nat, j: nat)
      requires Valid() && i < j < BufferCount && hasContext[i] && hasContext[j]
      ensures data[i] + BufferSize <= data[j] && data[j] + BufferSize <= BufferCount * BufferSize
    {
      hide Window, History;
      NextSlot(i, j, BufferSize);
      NextSlot(j, BufferCount, BufferSize);
    }
  }
}
