/** The delivery report bit masks (gw/dlr.h). Masks are C integers; bit `k` of a negative
    one is its two's complement bit. */
module DlrFlags {

  const DLR_UNDEFINED := -1

  predicate Bit(x: int, k: nat)
    decreases k
  {
    if k == 0 then x % 2 == 1 else Bit(x / 2, k - 1)
  }

  lemma {:induction false} NoBits(k: nat)
    ensures !Bit(0, k)
  {
    if k > 0 { NoBits(k - 1); }
  }

  /** Any of the seven defined flags. */
  predicate Enabled(mask: int) { mask != DLR_UNDEFINED && exists k :: 0 <= k < 7 && Bit(mask, k) }

  /** Buffered (bit 2) or accepted by the SMS centre (bit 3): more reports will come. */
  predicate NotFinal(typ: int) { typ != DLR_UNDEFINED && (Bit(typ, 2) || Bit(typ, 3)) }

  /** Success, failure, expired or unknown asked for (bits 0, 1, 5 and 6). */
  predicate SuccessOrFail(mask: int) {
    mask != DLR_UNDEFINED && (Bit(mask, 0) || Bit(mask, 1) || Bit(mask, 5) || Bit(mask, 6))
  }

  /** The C test (typ & mask) > 0 on 32-bit integers. */
  predicate Shares(typ: int, mask: int) {
    !(Bit(typ, 31) && Bit(mask, 31)) && exists k :: 0 <= k < 31 && Bit(typ, k) && Bit(mask, k)
  }
}
