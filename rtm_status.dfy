/**
 * The RTM status word, as defined in section 16.3.5 "RTM Abort Status
 * Definition" of the Intel 64 and IA-32 Architectures Software Developer's
 * Manual, Volume 1. The TxBegin and _xbegin() wrappers load all ones into
 * EAX before XBEGIN, which leaves EAX untouched when the transaction starts,
 * so a started transaction reads as all ones; on an abort the processor
 * writes the abort status bits below into EAX.
 */
module RtmStatus {

  type status = bv32

  const XBEGIN_STARTED: status := 0xFFFF_FFFF
  /** Bit 0: the abort came from XABORT. */
  const XABORT_EXPLICIT: status := 1
  /** Bit 1: the transaction may succeed on a retry (always clear when bit 0 is set). */
  const XABORT_RETRY: status := 2
  /** Bit 2: another processor conflicted with a memory address of the transaction. */
  const XABORT_CONFLICT: status := 4
  /** Bit 3: an internal buffer overflowed. */
  const XABORT_CAPACITY: status := 8
  /** Bit 4: a debug breakpoint was hit. */
  const XABORT_DEBUG: status := 16
  /** Bit 5: the abort happened in a nested transaction. */
  const XABORT_NESTED: status := 32

  predicate Has(s: status, flag: status)
  {
    s & flag != 0
  }

  /** The status that XABORT leaves behind: bit 0 set, retry clear (the 8-bit abort code is not modelled). */
  const XABORT_STATUS: status := XABORT_EXPLICIT
}
