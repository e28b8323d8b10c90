/**
 * The kqueue backend of the ae event loop: its state (`ApiState`), the part
 * of the event loop it reads and writes (`EventLoop`), and its six
 * operations — create, resize, free, add interest, delete interest, poll.
 *
 * The kernel and the allocator are the abstract `SysEvent.Kernel` and
 * `Zmalloc.Heap`; every outcome they could produce is a parameter.  Beside
 * the methods stand the pure definitions that say what they compute
 * (`TimespecOf`, `Translate`, `TranslateAll`, `AddEventModel`, `DelTable`)
 * and the lemmas that relate them.
 */
module AeKqueue {
  import opened CInt
  import opened SysEvent
  import opened Zmalloc

  /** Event mask bits of ae.h. */
  const AE_NONE: bv32 := 0
  const AE_READABLE: bv32 := 1
  const AE_WRITABLE: bv32 := 2

  /** Does `mask` carry `bit`, as `mask & bit` tests it in C? */
  predicate Has(mask: bv32, bit: bv32) { mask & bit != 0 }

  /** `struct timeval`: seconds and microseconds. */
  datatype Timeval = Timeval(tvSec: int, tvUsec: int)

  /** The `tvp` argument of `aeApiPoll`: a null pointer, or a pointer to a `timeval`. */
  datatype TimevalPtr = Null | Ptr(tv: Timeval)

  /** An entry of the event loop's `fired` array. */
  datatype FiredEvent = FiredEvent(fd: Int32, mask: bv32)

  // ---------------------------------------------------------------------
  // Timeout conversion

  predicate NormalTimeval(tv: Timeval) { 0 <= tv.tvUsec < 1_000_000 }
  predicate NormalTimespec(ts: Timespec) { 0 <= ts.tvNsec < 1_000_000_000 }

  function Micros(tv: Timeval): int { tv.tvSec * 1_000_000 + tv.tvUsec }
  function Nanos(ts: Timespec): int { ts.tvSec * 1_000_000_000 + ts.tvNsec }

  /**
   * The `timespec` that `aeApiPoll` builds from a `timeval`: same seconds,
   * microseconds scaled to nanoseconds.  It denotes the same duration, and
   * a well-formed `timeval` gives a well-formed `timespec`.
   */
  function TimespecOf(tv: Timeval): (ts: Timespec)
    ensures ts.tvSec == tv.tvSec && ts.tvNsec == tv.tvUsec * 1000
    ensures Nanos(ts) == Micros(tv) * 1000
    ensures NormalTimeval(tv) ==> NormalTimespec(ts)
  {
    Timespec(tv.tvSec, tv.tvUsec * 1000)
  }

  /** The timeout `aeApiPoll` hands to the kernel: none at all for a null `tvp`. */
  function TimeoutOf(tvp: TimevalPtr): (t: Timeout)
    ensures t.Forever? <==> tvp.Null?
    ensures tvp.Ptr? ==> t.ts == TimespecOf(tvp.tv)
  {
    match tvp
    case Null => Forever
    case Ptr(tv) => After(TimespecOf(tv))
  }

  // ---------------------------------------------------------------------
  // Readiness translation

  /** The event-loop mask a kernel filter stands for. */
  function MaskOfFilter(filter: Int16): bv32
  {
    if filter == EVFILT_READ then AE_READABLE
    else if filter == EVFILT_WRITE then AE_WRITABLE
    else AE_NONE
  }

  /**
   * The fired entry for one kernel record: its identifier as a descriptor,
   * and exactly one of READABLE or WRITABLE according to the filter, or no
   * bit at all for any other filter.
   */
  function Translate(e: KEvent): (f: FiredEvent)
    ensures f.fd == FdOfIdent(e.ident)
    ensures f.mask == AE_READABLE <==> e.filter == EVFILT_READ
    ensures f.mask == AE_WRITABLE <==> e.filter == EVFILT_WRITE
    ensures f.mask == AE_NONE <==> e.filter != EVFILT_READ && e.filter != EVFILT_WRITE
    ensures !(Has(f.mask, AE_READABLE) && Has(f.mask, AE_WRITABLE))
  {
    FiredEvent(FdOfIdent(e.ident), MaskOfFilter(e.filter))
  }

  /**
   * The fired entries for a batch of kernel records: one entry per record,
   * in the same order, with no merging of records for the same descriptor.
   */
  function TranslateAll(records: seq<KEvent>): (fired: seq<FiredEvent>)
    ensures |fired| == |records|
    ensures forall j :: 0 <= j < |records| ==> fired[j] == Translate(records[j])
  {
    if records == [] then [] else [Translate(records[0])] + TranslateAll(records[1..])
  }

  /**
   * A record the kernel reports for a registration the backend made on
   * `fd` reaches the event loop as `fd`, with the one bit of its filter.
   */
  lemma ReportedRegistration(fd: Int32, filter: Int16)
    requires filter == EVFILT_READ || filter == EVFILT_WRITE
    ensures Translate(KEvent(IdentOfFd(fd), filter)) ==
            FiredEvent(fd, if filter == EVFILT_READ then AE_READABLE else AE_WRITABLE)
  {
  }

  /**
   * Read and write readiness of one descriptor, reported as two records,
   * stay two fired entries with one bit each.
   */
  lemma SplitReadinessStaysSplit(fd: Int32)
    ensures TranslateAll([KEvent(IdentOfFd(fd), EVFILT_READ), KEvent(IdentOfFd(fd), EVFILT_WRITE)]) ==
            [FiredEvent(fd, AE_READABLE), FiredEvent(fd, AE_WRITABLE)]
  {
  }

  // ---------------------------------------------------------------------
  // Interest registration

  /** The filters a mask asks for, in the order the backend submits them. */
  function RequestedFilters(mask: bv32): (fs: seq<Int16>)
    ensures EVFILT_READ in fs <==> Has(mask, AE_READABLE)
    ensures EVFILT_WRITE in fs <==> Has(mask, AE_WRITABLE)
    ensures Has(mask, AE_READABLE) ==> fs[0] == EVFILT_READ
    ensures |fs| == (if Has(mask, AE_READABLE) then 1 else 0) + (if Has(mask, AE_WRITABLE) then 1 else 0)
    ensures forall i :: 0 <= i < |fs| ==> fs[i] == EVFILT_READ || fs[i] == EVFILT_WRITE
  {
    (if Has(mask, AE_READABLE) then [EVFILT_READ] else []) +
    (if Has(mask, AE_WRITABLE) then [EVFILT_WRITE] else [])
  }

  /** The interest-table pairs a mask names for `fd`. */
  function Requested(fd: Int32, mask: bv32): (s: set<Interest>)
    ensures forall p :: p in s <==> p.0 == IdentOfFd(fd) && p.1 in RequestedFilters(mask)
  {
    set f | f in RequestedFilters(mask) :: (IdentOfFd(fd), f)
  }

  /** The `kevent()` change calls for one descriptor and a list of filters, one call per filter. */
  function ChangeCalls(kq: int, ident: UIntPtr, filters: seq<Int16>, action: Action): seq<Call>
  {
    seq(|filters|, i requires 0 <= i < |filters| => Change(kq, ident, filters[i], action))
  }

  /**
   * Submitting the changes for `a` and then those for `b` logs the same
   * calls as submitting the changes for `a + b`.
   */
  lemma ChangeCallsAppend(kq: int, ident: UIntPtr, a: seq<Int16>, b: seq<Int16>, action: Action)
    ensures ChangeCalls(kq, ident, a + b, action) == ChangeCalls(kq, ident, a, action) + ChangeCalls(kq, ident, b, action)
  {
  }

  /** What `aeApiAddEvent` returns, leaves in the table and submits. */
  datatype AddOutcome = AddOutcome(ret: int, table: set<Interest>, submitted: seq<Int16>)

  /**
   * `aeApiAddEvent` on interest table `t`, when the kernel accepts the
   * READ change iff `readOk` and the WRITE change iff `writeOk`.
   *
   * It returns 0 exactly when every requested change was accepted, and -1
   * otherwise; it only ever adds pairs it was asked for, and on success
   * all of them are present.  READ is submitted before WRITE; a refused
   * READ stops it before WRITE with the table untouched, and a refused
   * WRITE leaves the READ registration in place.
   */
  function AddEventModel(t: set<Interest>, fd: Int32, mask: bv32, readOk: bool, writeOk: bool): (o: AddOutcome)
    ensures o.ret == 0 <==> (Has(mask, AE_READABLE) ==> readOk) && (Has(mask, AE_WRITABLE) ==> writeOk)
    ensures o.ret == 0 || o.ret == -1
    ensures t <= o.table <= t + Requested(fd, mask)
    ensures o.ret == 0 ==> Requested(fd, mask) <= o.table
    ensures Has(mask, AE_READABLE) && !readOk ==> o.table == t && o.submitted == [EVFILT_READ]
    ensures !Has(mask, AE_READABLE) && Has(mask, AE_WRITABLE) && !writeOk ==>
              o.table == t && o.submitted == [EVFILT_WRITE]
    ensures Has(mask, AE_READABLE) && readOk && Has(mask, AE_WRITABLE) && !writeOk ==>
              o.table == t + {(IdentOfFd(fd), EVFILT_READ)} && o.submitted == [EVFILT_READ, EVFILT_WRITE]
    ensures !(Has(mask, AE_READABLE) && !readOk) ==> o.submitted == RequestedFilters(mask)
  {
    var ident := IdentOfFd(fd);
    if Has(mask, AE_READABLE) && !readOk then
      AddOutcome(-1, t, [EVFILT_READ])
    else
      var afterRead := if Has(mask, AE_READABLE) then t + {(ident, EVFILT_READ)} else t;
      if Has(mask, AE_WRITABLE) && !writeOk then
        AddOutcome(-1, afterRead, RequestedFilters(mask))
      else
        AddOutcome(0, if Has(mask, AE_WRITABLE) then afterRead + {(ident, EVFILT_WRITE)} else afterRead,
                   RequestedFilters(mask))
  }

  /**
   * The interest table after `aeApiDelEvent`: exactly the requested pairs
   * for `fd` are gone, and every other registration is still there.
   */
  function DelTable(t: set<Interest>, fd: Int32, mask: bv32): (t': set<Interest>)
    ensures forall p :: p in t' <==> p in t && !(p.0 == IdentOfFd(fd) && p.1 in RequestedFilters(mask))
  {
    t - Requested(fd, mask)
  }

  /** A mask with neither bit submits nothing, changes nothing and succeeds. */
  lemma AddNothing(t: set<Interest>, fd: Int32, mask: bv32, readOk: bool, writeOk: bool)
    requires !Has(mask, AE_READABLE) && !Has(mask, AE_WRITABLE)
    ensures AddEventModel(t, fd, mask, readOk, writeOk) == AddOutcome(0, t, [])
  {
  }

  /**
   * Deleting what was asked for undoes an add of the same mask, whatever
   * the add's outcome: a partial registration left by a refused WRITE is
   * removed too.
   */
  lemma DelUndoesAdd(t: set<Interest>, fd: Int32, mask: bv32, readOk: bool, writeOk: bool)
    ensures DelTable(AddEventModel(t, fd, mask, readOk, writeOk).table, fd, mask) == DelTable(t, fd, mask)
  {
  }

  /** After a successful add, adding the same mask again changes nothing. */
  lemma AddIdempotent(t: set<Interest>, fd: Int32, mask: bv32, readOk: bool, writeOk: bool)
    requires AddEventModel(t, fd, mask, readOk, writeOk).ret == 0
    ensures AddEventModel(AddEventModel(t, fd, mask, readOk, writeOk).table, fd, mask, true, true) ==
            AddEventModel(t, fd, mask, readOk, writeOk)
  {
  }

  // ---------------------------------------------------------------------
  // Backend state and operations

  /** `aeApiState`: the kqueue descriptor and the buffer the kernel reports into. */
  class ApiState {
    var kqfd: int
    var events: array?<KEvent>

    /** A fresh `zmalloc`'d state, its fields not yet set. */
    constructor ()
      ensures events == null
    {
      kqfd := -1;
      events := null;
    }
  }

  /** The fields of `aeEventLoop` that the backend uses. */
  class EventLoop {
    var setsize: int
    var fired: array<FiredEvent>
    var apidata: ApiState?

    /** An event loop of capacity `setsize` with no backend state yet. */
    constructor (setsize: nat)
      ensures this.setsize == setsize && fresh(fired) && fired.Length == setsize && apidata == null
    {
      this.setsize := setsize;
      fired := new FiredEvent[setsize];
      apidata := null;
    }

    /** The backend state exists, with its buffer, on an open kqueue. */
    ghost predicate Attached(kernel: Kernel)
      reads this, apidata, kernel
    {
      apidata != null && apidata.events != null && apidata.kqfd in kernel.tables
    }

    /** `Attached`, and the state and its buffer are live allocations. */
    ghost predicate Live(kernel: Kernel, heap: Heap)
      reads this, apidata, kernel, heap
    {
      Attached(kernel) && apidata in heap.live && apidata.events in heap.live
    }

    /**
     * `aeApiCreate`.  `stateOk` and `eventsOk` say whether the two
     * `zmalloc` calls succeed, `kqueueResult` is what `kqueue()` returns.
     * It succeeds (returns 0) exactly when all three do; then `apidata` is
     * a new state on a new, empty kqueue with a buffer of `setsize`
     * records.  On any failure it returns -1, `apidata` is not assigned,
     * and everything it allocated has been freed again.
     */
    method ApiCreate(kernel: Kernel, heap: Heap, stateOk: bool, eventsOk: bool, kqueueResult: int) returns (r: int)
      requires 0 <= setsize
      requires kqueueResult == -1 || (0 <= kqueueResult < 0x8000_0000 && kqueueResult !in kernel.tables)
      modifies this`apidata, kernel, heap
      ensures r == 0 <==> stateOk && eventsOk && kqueueResult != -1
      ensures r == 0 || r == -1
      ensures r == 0 ==>
                fresh(apidata) && apidata.events != null && fresh(apidata.events) &&
                apidata.events.Length == setsize && apidata.kqfd == kqueueResult &&
                kernel.tables == old(kernel.tables)[kqueueResult := {}] &&
                heap.live == old(heap.live) + {apidata, apidata.events} &&
                Live(kernel, heap)
      ensures r == -1 ==>
                apidata == old(apidata) && kernel.tables == old(kernel.tables) && heap.live == old(heap.live)
      ensures kernel.calls == old(kernel.calls)
    {
      if !stateOk {
        return -1;
      }
      var state := new ApiState();
      heap.Track(state);
      if !eventsOk {
        heap.Zfree(state);
        return -1;
      }
      var events := new KEvent[setsize];
      heap.Track(events);
      state.events := events;
      state.kqfd := kernel.Kqueue(kqueueResult);
      if state.kqfd == -1 {
        heap.Zfree(events);
        heap.Zfree(state);
        return -1;
      }
      apidata := state;
      return 0;
    }

    /**
     * `aeApiResize`: the buffer is reallocated to `newSize` records, keeping
     * the records both sizes have room for.  It always returns 0.
     */
    method ApiResize(ghost kernel: Kernel, heap: Heap, newSize: int) returns (r: int)
      requires Live(kernel, heap)
      requires 0 <= newSize
      modifies apidata`events, heap
      ensures r == 0
      ensures apidata.events != null && fresh(apidata.events) && apidata.events.Length == newSize
      ensures var keep := Min(old(apidata.events.Length), newSize);
              apidata.events[..keep] == old(apidata.events[..keep])
      ensures heap.live == old(heap.live) - {old(apidata.events)} + {apidata.events}
      ensures Live(kernel, heap)
    {
      var state := apidata;
      state.events := heap.Zrealloc(state.events, newSize);
      return 0;
    }

    /**
     * `aeApiFree`: closes the kqueue, dropping its interest table, and
     * frees the buffer and the state.  `apidata` keeps pointing at the
     * freed state, so the backend is no longer live.
     */
    method ApiFree(kernel: Kernel, heap: Heap)
      requires Live(kernel, heap)
      modifies kernel, heap
      ensures kernel.tables == old(kernel.tables) - {apidata.kqfd}
      ensures heap.live == old(heap.live) - {apidata, apidata.events}
      ensures kernel.calls == old(kernel.calls)
      ensures !Live(kernel, heap)
    {
      var state := apidata;
      var closed := kernel.Close(state.kqfd);
      heap.Zfree(state.events);
      heap.Zfree(state);
    }

    /**
     * `aeApiAddEvent`: registers the bits of `mask` for `fd`, one `kevent()`
     * change at a time, as `AddEventModel` describes.  Only this backend's
     * kqueue table changes.
     */
    method ApiAddEvent(kernel: Kernel, fd: Int32, mask: bv32, readOk: bool, writeOk: bool) returns (r: int)
      requires Attached(kernel)
      modifies kernel
      ensures Attached(kernel)
      ensures var o := AddEventModel(old(kernel.tables)[apidata.kqfd], fd, mask, readOk, writeOk);
              r == o.ret &&
              kernel.tables == old(kernel.tables)[apidata.kqfd := o.table] &&
              kernel.calls == old(kernel.calls) + ChangeCalls(apidata.kqfd, IdentOfFd(fd), o.submitted, EvAdd)
    {
      var state := apidata;
      var ident := IdentOfFd(fd);
      ghost var calls0 := kernel.calls;
      if mask & AE_READABLE != 0 {
        var rc := kernel.KeventAdd(state.kqfd, ident, EVFILT_READ, readOk);
        if rc == -1 {
          return -1;
        }
      }
      if mask & AE_WRITABLE != 0 {
        var rc := kernel.KeventAdd(state.kqfd, ident, EVFILT_WRITE, writeOk);
        ChangeCallsAppend(state.kqfd, ident, RequestedFilters(mask)[..|RequestedFilters(mask)| - 1], [EVFILT_WRITE], EvAdd);
        assert kernel.calls == calls0 + ChangeCalls(state.kqfd, ident, RequestedFilters(mask), EvAdd);
        if rc == -1 {
          return -1;
        }
      }
      assert kernel.calls == calls0 + ChangeCalls(state.kqfd, ident, RequestedFilters(mask), EvAdd);
      return 0;
    }

    /**
     * `aeApiDelEvent`: submits an `EV_DELETE` for each bit of `mask`, READ
     * first, and ignores what the kernel says.  Afterwards the table is
     * `DelTable` of what it was; other kqueues are untouched.
     */
    method ApiDelEvent(kernel: Kernel, fd: Int32, mask: bv32)
      requires Attached(kernel)
      modifies kernel
      ensures Attached(kernel)
      ensures kernel.tables == old(kernel.tables)[apidata.kqfd := DelTable(old(kernel.tables)[apidata.kqfd], fd, mask)]
      ensures kernel.calls == old(kernel.calls) + ChangeCalls(apidata.kqfd, IdentOfFd(fd), RequestedFilters(mask), EvDelete)
    {
      var state := apidata;
      var ident := IdentOfFd(fd);
      ghost var t := kernel.tables[state.kqfd];
      if mask & AE_READABLE != 0 {
        var ignored := kernel.KeventDelete(state.kqfd, ident, EVFILT_READ);
      }
      if mask & AE_WRITABLE != 0 {
        var ignored := kernel.KeventDelete(state.kqfd, ident, EVFILT_WRITE);
      }
      assert kernel.tables[state.kqfd] == DelTable(t, fd, mask);
    }

    /**
     * `aeApiPoll`: waits once on the kqueue with room for `setsize`
     * records and the timeout derived from `tvp`, then translates the
     * records the kernel wrote into `fired[0..numevents)`.
     *
     * It returns the number of records when the kernel reports some, and
     * 0 when it reports none or fails.  Entries of `fired` from
     * `numevents` on are left as they were.
     */
    method ApiPoll(kernel: Kernel, tvp: TimevalPtr, report: WaitReport) returns (numevents: int)
      requires Attached(kernel)
      requires 0 <= setsize <= apidata.events.Length && setsize <= fired.Length
      requires report.Ready? ==> |report.records| <= setsize
      modifies kernel, apidata.events, fired
      ensures Attached(kernel)
      ensures numevents == if report.Ready? then |report.records| else 0
      ensures 0 <= numevents <= setsize
      ensures report.Ready? ==> fired[..numevents] == TranslateAll(report.records)
      ensures fired[numevents..] == old(fired[numevents..])
      ensures apidata.events[numevents..] == old(apidata.events[numevents..])
      ensures report.Ready? ==> apidata.events[..numevents] == report.records
      ensures kernel.tables == old(kernel.tables)
      ensures kernel.calls == old(kernel.calls) + [Wait(apidata.kqfd, setsize, TimeoutOf(tvp))]
    {
      var state := apidata;
      var retval: int;
      numevents := 0;
      if tvp.Ptr? {
        var timeout := Timespec(tvp.tv.tvSec, tvp.tv.tvUsec * 1000);
        retval := kernel.KeventWait(state.kqfd, state.events, setsize, After(timeout), report);
      } else {
        retval := kernel.KeventWait(state.kqfd, state.events, setsize, Forever, report);
      }
      ghost var count := if report.Ready? then |report.records| else 0;
      ghost var written := state.events[..];
      assert written[count..] == old(state.events[count..]);
      if retval > 0 {
        numevents := retval;
        var j := 0;
        while j < numevents
          modifies fired
          invariant 0 <= j <= numevents
          invariant state.events[..] == written
          invariant forall k :: 0 <= k < j ==> fired[k] == Translate(state.events[k])
          invariant forall k :: j <= k < fired.Length ==> fired[k] == old(fired[k])
        {
          var e := state.events[j];
          var mask := AE_NONE;
          if e.filter == EVFILT_READ {
            mask := mask | AE_READABLE;
          }
          if e.filter == EVFILT_WRITE {
            mask := mask | AE_WRITABLE;
          }
          assert mask == MaskOfFilter(e.filter);
          fired[j] := FiredEvent(FdOfIdent(e.ident), mask);
          j := j + 1;
        }
        assert fired[..numevents] == TranslateAll(state.events[..numevents]);
        assert fired[numevents..] == old(fired[numevents..]);
      }
    }
  }
}
