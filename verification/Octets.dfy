/** Octet strings, as the gateway's string library (gwlib/octstr.c) sees them. */
module Octets {

  type Octet = x: int | 0 <= x < 256

  type Octstr = seq<Octet>

  datatype Option<+T> = None | Some(value: T)

  /** The contents of a possibly NULL string; NULL reads as the empty string. */
  function Value(os: Option<Octstr>): Octstr {
    if os.Some? then os.value else []
  }

  /** Reading past either end yields -1 instead of failing. */
  function GetChar(s: Octstr, pos: int): int {
    if 0 <= pos < |s| then s[pos] else -1
  }

  /** Up to `len` octets from `from`; both ends are clipped to the string. */
  function Copy(s: Octstr, from: nat, len: nat): Octstr {
    if from >= |s| then [] else if len > |s| - from then s[from..] else s[from..from + len]
  }

  /** The string without up to `len` octets from `pos`; both ends are clipped. */
  function Delete(s: Octstr, pos: nat, len: nat): Octstr {
    if pos >= |s| then s else if pos + len >= |s| then s[..pos] else s[..pos] + s[pos + len..]
  }

  /** Joins a list of strings. */
  function Join(parts: seq<Octstr>): Octstr {
    if parts == [] then [] else parts[0] + Join(parts[1..])
  }

  lemma {:induction false} JoinAppend(parts: seq<Octstr>, last: Octstr)
    ensures Join(parts + [last]) == Join(parts) + last
  {
    if parts == [] {
      assert parts + [last] == [last];
    } else {
      JoinAppend(parts[1..], last);
      assert (parts + [last])[1..] == parts[1..] + [last];
    }
  }

  /** The octets `x` stand at `off`. */
  predicate Holds(os: Octstr, off: nat, x: Octstr) {
    off + |x| <= |os| && os[off..off + |x|] == x
  }

  lemma HoldsSplit(os: Octstr, off: nat, a: Octstr, b: Octstr)
    requires Holds(os, off, a + b)
    ensures Holds(os, off, a) && Holds(os, off + |a|, b)
  {
    var n, m := |a|, |b|;
    assert os[off..off + n] == os[off..off + n + m][..n] == (a + b)[..n];
    assert os[off + n..off + n + m] == os[off..off + n + m][n..] == (a + b)[n..];
  }

  /** The same for a whole whose first part ends at `mid`. */
  lemma HoldsParts(os: Octstr, off: nat, whole: Octstr, a: Octstr, b: Octstr, mid: nat)
    requires Holds(os, off, whole) && whole == a + b && mid == off + |a|
    ensures Holds(os, off, a) && Holds(os, mid, b) && mid + |b| == off + |whole|
  {
    HoldsSplit(os, off, a, b);
  }

  /** A C string ends at the first NUL. */
  function CString(os: Octstr): (c: Octstr)
    ensures c <= os && 0 !in c
  {
    if os == [] || os[0] == 0 then [] else [os[0]] + CString(os[1..])
  }

  lemma {:induction false} NoNul(t: Octstr)
    requires 0 !in t
    ensures CString(t) == t
  {
    if t != [] { NoNul(t[1..]); }
  }

  /** The value of a hexadecimal digit of either case, or -1. */
  function HexValue(c: Octet): (v: int)
    ensures -1 <= v < 16
  {
    if 0x30 <= c <= 0x39 then c - 0x30
    else if 0x61 <= c <= 0x66 then c - 0x57
    else if 0x41 <= c <= 0x46 then c - 0x37 else -1
  }
}
