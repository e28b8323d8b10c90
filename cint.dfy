/**
 * C integer widths used by the kqueue backend, and the two implicit
 * conversions its code performs between a descriptor (`int`) and a
 * kevent identifier (`uintptr_t`) on an LP64 host with two's-complement
 * integers.
 */
module CInt {

  const TWO_32: int := 0x1_0000_0000
  const TWO_64: int := 0x1_0000_0000_0000_0000

  /** `int16_t`, the type of `struct kevent`'s `filter` field. */
  type Int16 = x: int | -0x8000 <= x < 0x8000

  /** `int`, the type of descriptors and of the backend's return codes. */
  type Int32 = x: int | -0x8000_0000 <= x < 0x8000_0000

  /** `uintptr_t`, the type of `struct kevent`'s `ident` field. */
  type UIntPtr = x: int | 0 <= x < 0x1_0000_0000_0000_0000

  /** `EV_SET(&ke, fd, ...)` stores an `int` into a `uintptr_t`: reduction modulo 2^64. */
  function IdentOfFd(fd: Int32): (ident: UIntPtr)
    ensures (ident - fd) % TWO_64 == 0
    ensures 0 <= fd ==> ident == fd
  {
    fd % TWO_64
  }

  /**
   * `fired[j].fd = e->ident` stores a `uintptr_t` into an `int`: the low 32
   * bits, read as a two's-complement number.
   */
  function FdOfIdent(ident: UIntPtr): (fd: Int32)
    ensures (ident - fd) % TWO_32 == 0
    ensures ident < 0x8000_0000 ==> fd == ident
  {
    var low := ident % TWO_32;
    if low < 0x8000_0000 then low else low - TWO_32
  }

  /**
   * A descriptor registered with the kernel comes back unchanged when the
   * kernel reports the identifier it was registered under.
   */
  lemma FdIdentRoundTrip(fd: Int32)
    ensures FdOfIdent(IdentOfFd(fd)) == fd
  {
  }
}
