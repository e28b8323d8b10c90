/**
 * The kernel side of kqueue(2), reduced to what the backend can observe.
 *
 * A `Kernel` holds one interest table per open kqueue descriptor: the set
 * of (identifier, filter) pairs registered on it.  Whether a registration
 * is accepted, which descriptor `kqueue()` hands out and what a wait
 * reports are decided outside the model and passed in by the caller.
 * Every `kevent()` call is appended to `calls`, so that the order in which
 * the backend submits changes, and the timeout it waits with, are part of
 * the observable state.
 */
module SysEvent {
  import opened CInt

  /** Filter codes of `<sys/event.h>` on the BSDs and macOS. */
  const EVFILT_READ: Int16 := -1
  const EVFILT_WRITE: Int16 := -2

  /** The fields of `struct kevent` that the backend sets or reads. */
  datatype KEvent = KEvent(ident: UIntPtr, filter: Int16)

  /** `struct timespec`: seconds and nanoseconds. */
  datatype Timespec = Timespec(tvSec: int, tvNsec: int)

  /** The timeout argument of `kevent()`: a null pointer, or a pointer to a `timespec`. */
  datatype Timeout = Forever | After(ts: Timespec)

  /** One registration in a kqueue's interest table. */
  type Interest = (UIntPtr, Int16)

  /** The two `flags` actions the backend uses: `EV_ADD` and `EV_DELETE`. */
  datatype Action = EvAdd | EvDelete

  /** One `kevent()` call: a single change, or a wait for events with no changes. */
  datatype Call =
    | Change(kq: int, ident: UIntPtr, filter: Int16, action: Action)
    | Wait(kq: int, nevents: int, timeout: Timeout)

  /** What a wait returns: the ready records it wrote, or an error (`-1`, e.g. `EINTR`). */
  datatype WaitReport = Ready(records: seq<KEvent>) | Failed

  class Kernel {
    /** Open kqueue descriptors and their interest tables. */
    var tables: map<int, set<Interest>>
    /** Every `kevent()` call made so far, oldest first. */
    var calls: seq<Call>

    constructor ()
      ensures tables == map[] && calls == []
    {
      tables := map[];
      calls := [];
    }

    /**
     * `kqueue()`: `result` is the descriptor the kernel hands out, a fresh
     * one, or -1 when it refuses.
     */
    method Kqueue(result: int) returns (fd: int)
      requires result == -1 || (0 <= result < 0x8000_0000 && result !in tables)
      modifies this
      ensures fd == result
      ensures tables == if result == -1 then old(tables) else old(tables)[result := {}]
      ensures calls == old(calls)
    {
      fd := result;
      if fd != -1 {
        tables := tables[fd := {}];
      }
    }

    /** `kevent()` with one `EV_ADD` change; `accept` says whether the kernel takes it. */
    method KeventAdd(kq: int, ident: UIntPtr, filter: Int16, accept: bool) returns (r: int)
      requires kq in tables
      modifies this
      ensures r == if accept then 0 else -1
      ensures tables == old(tables)[kq := if accept then old(tables)[kq] + {(ident, filter)} else old(tables)[kq]]
      ensures calls == old(calls) + [Change(kq, ident, filter, EvAdd)]
    {
      calls := calls + [Change(kq, ident, filter, EvAdd)];
      if accept {
        tables := tables[kq := tables[kq] + {(ident, filter)}];
        r := 0;
      } else {
        r := -1;
      }
    }

    /**
     * `kevent()` with one `EV_DELETE` change: the pair is gone afterwards;
     * the call fails (`ENOENT`) when it was not registered.
     */
    method KeventDelete(kq: int, ident: UIntPtr, filter: Int16) returns (r: int)
      requires kq in tables
      modifies this
      ensures r == if (ident, filter) in old(tables)[kq] then 0 else -1
      ensures tables == old(tables)[kq := old(tables)[kq] - {(ident, filter)}]
      ensures calls == old(calls) + [Change(kq, ident, filter, EvDelete)]
    {
      calls := calls + [Change(kq, ident, filter, EvDelete)];
      r := if (ident, filter) in tables[kq] then 0 else -1;
      tables := tables[kq := tables[kq] - {(ident, filter)}];
    }

    /**
     * `kevent()` with no changes and room for `nevents` records: the kernel
     * writes what `report` says into the front of `eventlist` and returns
     * their number, or returns -1 and writes nothing.
     */
    method KeventWait(kq: int, eventlist: array<KEvent>, nevents: int, timeout: Timeout, report: WaitReport)
      returns (r: int)
      requires kq in tables
      requires 0 <= nevents <= eventlist.Length
      requires report.Ready? ==> |report.records| <= nevents
      modifies this, eventlist
      ensures r == if report.Ready? then |report.records| else -1
      ensures report.Ready? ==> eventlist[..|report.records|] == report.records
      ensures forall i :: 0 <= i < eventlist.Length && (report.Failed? || |report.records| <= i) ==>
                eventlist[i] == old(eventlist[i])
      ensures tables == old(tables)
      ensures calls == old(calls) + [Wait(kq, nevents, timeout)]
    {
      calls := calls + [Wait(kq, nevents, timeout)];
      if report.Failed? {
        return -1;
      }
      var i := 0;
      while i < |report.records|
        modifies eventlist
        invariant 0 <= i <= |report.records|
        invariant eventlist[..i] == report.records[..i]
        invariant forall k :: i <= k < eventlist.Length ==> eventlist[k] == old(eventlist[k])
      {
        eventlist[i] := report.records[i];
        i := i + 1;
      }
      r := |report.records|;
    }

    /** `close()` on a descriptor: a kqueue's table goes away with it. */
    method Close(fd: int) returns (r: int)
      modifies this
      ensures r == if fd in old(tables) then 0 else -1
      ensures tables == old(tables) - {fd}
      ensures calls == old(calls)
    {
      r := if fd in tables then 0 else -1;
      tables := tables - {fd};
    }
  }
}
