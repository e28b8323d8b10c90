# kqueue backend of the ae event loop — Dafny model

This project models `src/ae_kqueue.c`, the kqueue(2) backend of the ae event
loop. It covers the backend's state (`aeApiState`: the kqueue descriptor and
the buffer the kernel writes ready records into). It also covers its six
operations:

- `aeApiCreate`, `aeApiResize` and `aeApiFree` allocate, grow and release that state.
- `aeApiAddEvent` and `aeApiDelEvent` register and drop read/write interest for a descriptor.
- `aeApiPoll` converts the caller's `timeval` timeout and waits once. It then translates the kernel's records into the loop's `fired` array.

The kernel and the allocator are replaced by abstract models:

- `SysEvent.Kernel` keeps one interest table per open kqueue descriptor: a set of `(ident, filter)` pairs. It also keeps a log of every `kevent()` call, so the order of submitted changes and the timeout passed to a wait are observable.
- `Zmalloc.Heap` keeps the set of live blocks.

Every outcome the outside world decides is a parameter of the model:

- whether each `zmalloc` succeeds. The allocator aborts on out of memory, but `aeApiCreate` tests both results (src/ae_kqueue.c:44,46), so the model keeps those failure paths;
- which descriptor `kqueue()` returns;
- whether the kernel accepts each `EV_ADD`;
- which records a wait reports, or whether it fails.

Files:

- `cint.dfy`: the C integer widths involved, and the `int` to `uintptr_t` conversions and back.
- `sysevent.dfy`: `struct kevent`, the filter codes, `timespec`, and the kernel.
- `zmalloc.dfy`: the allocator.
- `ae_kqueue.dfy`: the backend. It has the `EventLoop` and `ApiState` classes, whose methods follow the C code step by step. Beside them are the pure definitions those methods are proved against, and the lemmas about those definitions.

Constants:

- `AE_READABLE = 1` and `AE_WRITABLE = 2` are the mask bits of `ae.h`. `ae.h` is not part of this model.
- `EVFILT_READ = -1` and `EVFILT_WRITE = -2` are the codes of `<sys/event.h>` on the BSDs and macOS.
- Masks are `bv32`, the bit pattern of a C `int`.

Behaviour of the code worth noting:

- `aeApiAddEvent` stops at the first refused change and returns -1. A READ accepted just before a refused WRITE stays registered (`AddEventModel`, `DelUndoesAdd`).
- `aeApiResize` has no failure path and always returns 0. It does not test the result of `zrealloc`, which aborts the process on out of memory instead of returning.
- The backend never merges records. Two records for one descriptor stay two `fired` entries with one bit each (`TranslateAll`, `SplitReadinessStaysSplit`).

## Model

| member | source | states |
|---|---|---|
| `CInt.IdentOfFd` | src/ae_kqueue.c:115 | storing the descriptor into `ident` reduces it modulo 2^64; a non-negative descriptor is kept as it is |
| `CInt.FdOfIdent` | src/ae_kqueue.c:179 | storing `ident` into `fired[j].fd` gives a value congruent to it modulo 2^32 in the `int` range; identifiers below 2^31 are kept as they are |
| `CInt.FdIdentRoundTrip` | src/ae_kqueue.c:179 | for every `int` descriptor, converting it to an identifier and back gives the descriptor again |
| `SysEvent.Kernel.Kqueue` | src/ae_kqueue.c:50 | `kqueue()` returns the supplied result; a new descriptor starts with an empty interest table; -1 changes nothing |
| `SysEvent.Kernel.KeventAdd` | src/ae_kqueue.c:118 | one `EV_ADD` change is logged; if accepted it adds the pair and returns 0, otherwise it returns -1 and the table is unchanged |
| `SysEvent.Kernel.KeventDelete` | src/ae_kqueue.c:135 | one `EV_DELETE` change is logged; the pair is absent afterwards; it returns -1 when the pair was not registered |
| `SysEvent.Kernel.KeventWait` | src/ae_kqueue.c:159-163 | one wait is logged with its capacity and timeout; it writes the reported records to the front of the buffer and returns their count, or returns -1 and writes nothing; the rest of the buffer and all tables are unchanged |
| `SysEvent.Kernel.Close` | src/ae_kqueue.c:70 | closing a kqueue descriptor drops its interest table and nothing else |
| `Zmalloc.Heap.Track` | src/ae_kqueue.c:42 | a successful allocation adds exactly the new block to the live set |
| `Zmalloc.Heap.Zfree` | src/ae_kqueue.c:47 | freeing removes exactly that block from the live set |
| `Zmalloc.Heap.Zrealloc` | src/ae_kqueue.c:63 | the new buffer has the requested length; the prefix both lengths share is preserved; it replaces the old block in the live set |
| `AeKqueue.TimespecOf` | src/ae_kqueue.c:155-157 | seconds are kept and `tv_nsec = tv_usec * 1000`; the duration in nanoseconds is 1000 times the duration in microseconds; a well-formed `timeval` gives a well-formed `timespec` |
| `AeKqueue.TimeoutOf` | src/ae_kqueue.c:154-163 | a null `tvp` selects the unbounded wait; any other `tvp` gives the converted `timespec` |
| `AeKqueue.Translate` | src/ae_kqueue.c:171-180 | the entry's fd is the record's identifier converted to `int`; its mask is READABLE iff the filter is `EVFILT_READ`, WRITABLE iff it is `EVFILT_WRITE`, and 0 iff it is neither; it never has both bits |
| `AeKqueue.TranslateAll` | src/ae_kqueue.c:170-181 | one entry per record, in record order, each the translation of its record (no coalescing) |
| `AeKqueue.ReportedRegistration` | src/ae_kqueue.c:177-179 | a record for a pair registered on `fd` comes back as `fd` with exactly the bit of its filter |
| `AeKqueue.SplitReadinessStaysSplit` | src/ae_kqueue.c:170-181 | separate read and write records for one descriptor give two entries for that descriptor, READABLE then WRITABLE |
| `AeKqueue.RequestedFilters` | src/ae_kqueue.c:79-124 | the filters a mask asks for: READ iff the READABLE bit is set, WRITE iff the WRITABLE bit is set, each at most once (one per set bit), READ first |
| `AeKqueue.Requested` | src/ae_kqueue.c:115-121 | the interest pairs a mask names: exactly `(ident of fd, f)` for each requested filter `f` |
| `AeKqueue.ChangeCallsAppend` | src/ae_kqueue.c:118-123 | the change calls logged for READ and then WRITE, submitted one at a time, are the calls for the whole filter list in that order |
| `AeKqueue.AddEventModel` | src/ae_kqueue.c:79-125 | returns 0 iff every requested change is accepted, else -1; adds only requested pairs and, on success, all of them; a refused READ submits nothing more and leaves the table unchanged; a refused WRITE on a WRITE-only mask leaves the table unchanged; a refused WRITE after READ leaves READ registered |
| `AeKqueue.DelTable` | src/ae_kqueue.c:132-140 | exactly the requested pairs for `fd` are removed; every other registration stays |
| `AeKqueue.AddNothing` | src/ae_kqueue.c:79-125 | a mask with neither bit submits nothing, changes nothing and returns 0 |
| `AeKqueue.DelUndoesAdd` | src/ae_kqueue.c:128-141 | deleting a mask after an add of the same mask, whatever the add's outcome, gives the same table as deleting it without the add |
| `AeKqueue.AddIdempotent` | src/ae_kqueue.c:115-123 | after a successful add, adding the same mask again leaves the table unchanged |
| `AeKqueue.ApiState.constructor` | src/ae_kqueue.c:36-42 | a newly allocated state has no events buffer yet |
| `AeKqueue.EventLoop.ApiCreate` | src/ae_kqueue.c:41-58 | returns 0 iff both allocations and `kqueue()` succeed; then `apidata` is a new state on a new, empty kqueue with a buffer of `setsize` records, and exactly those two blocks were allocated; on failure it returns -1, `apidata` is unassigned, and the live set and kernel tables are as before |
| `AeKqueue.EventLoop.ApiResize` | src/ae_kqueue.c:60-65 | always returns 0; the buffer now has `newSize` records and keeps the prefix both sizes share; the old block is replaced by the new one; the backend stays live |
| `AeKqueue.EventLoop.ApiFree` | src/ae_kqueue.c:67-73 | the kqueue's table is gone; the buffer and the state are freed; the backend is no longer live |
| `AeKqueue.EventLoop.ApiAddEvent` | src/ae_kqueue.c:75-126 | result, table and `kevent()` log are as `AddEventModel` says; only this kqueue's table changes |
| `AeKqueue.EventLoop.ApiDelEvent` | src/ae_kqueue.c:128-141 | the table becomes `DelTable` of the old one; one `EV_DELETE` is submitted per requested bit, READ first; nothing is reported |
| `AeKqueue.EventLoop.ApiPoll` | src/ae_kqueue.c:150-185 | one wait with capacity `setsize` and timeout `TimeoutOf(tvp)`; returns the record count when the kernel reports records, and 0 when it reports none or fails; `fired[0..numevents)` is `TranslateAll` of the records; later entries are unchanged; the kernel's buffer holds the records in front and is unchanged from `numevents` on; `numevents <= setsize`; no table changes |

## Left out

- `aeApiName`: it returns a constant string, so there is nothing to prove about it.
- The kernel itself: these are the `kqueue()`, `kevent()` and `close()` system calls. Their outcomes are parameters. A wait's promise to report at most `nevents` records is a precondition of `ApiPoll`.
- `SysEvent.Kernel.KeventDelete`: it models only the `ENOENT` failure of `EV_DELETE`. Its result is ignored by the backend in every case.
- Blocking and wall-clock time in the wait: real time and scheduling are not logic.
- `zmalloc`/`zrealloc`/`zfree` internals, addresses and sizes: blocks are Dafny objects. `zrealloc` is modelled as always returning a fresh block, because out of memory aborts the process.
- The `struct kevent` fields `flags` (other than `EV_ADD`/`EV_DELETE`), `fflags`, `data` and `udata`: the backend does not read them.
- `AeKqueue.TimespecOf`: it does not model the overflow of `tv_usec * 1000` when `tv_usec` is a 32-bit `suseconds_t` beyond ±2147483 microseconds. The event loop only passes well-formed timevals (`0 <= tv_usec < 1000000`), and for those the product fits.
- `CInt.FdOfIdent`: the `uintptr_t` to `int` conversion is implementation-defined in C. It is modelled as the two's-complement truncation of the LP64 BSD/macOS hosts kqueue runs on.
- The rest of the event loop: the file-event table, timers, the dispatch loop that coalesces `fired` entries, and `aeResizeSetSize`, which updates `setsize` and reallocates `fired` after `aeApiResize`. `src/ae.c` and `src/ae.h` are not part of this model. `EventLoop.constructor` stands in for the part of loop creation that sets `setsize` and allocates `fired`.
