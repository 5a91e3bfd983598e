/** The concatenation element of the user data header: the writer in gw/sms.c and
    the scanner in gw/bb_smscconn.c (section 9.2.3.24.1 of 3GPP TS 23.040). */
module Udh {
  import opened Octets

  const CATENATE_UDH_LEN := 5

  /** prepend_catenation_udh: despite its name it appends one element and then
      rewrites the length octet. Every value is truncated to one octet. */
  function AddConcat(udh: Octstr, part: int, total: int, ref: int): Octstr {
    var base := if udh == [] then [CATENATE_UDH_LEN] else udh;
    var u: Octstr := base + [0, 3, ref % 256, total % 256, part % 256];
    u[0 := (|u| - 1) % 256]
  }

  datatype ConcatInfo = NoConcat | Concat(ref: int, total: int, part: int, rest: Octstr)

  /** Where the scan for element 0 or 8 stops: position, last identifier, last length. */
  datatype Stop = Stop(pos: nat, c: int, iel: nat)

  function Scan(udh: Octstr, at: Stop): Stop
    requires at.pos >= 1
    decreases |udh| - at.pos
  {
    if at.pos >= |udh| - 1 then at
    else
      var c, iel := udh[at.pos], udh[at.pos + 1];
      if c == 0 || c == 8 then Stop(at.pos, c, iel) else Scan(udh, Stop(at.pos + iel + 2, c, iel))
  }

  /** Cutting the element out; a header left with only its length octet becomes empty. */
  function WithoutElement(udh: Octstr, pos: nat, iel: nat): Octstr {
    var u := Delete(udh, pos, iel + 2);
    if |u| <= 1 then [] else u[0 := (|u| - 1) % 256]
  }

  /** What the scanner makes of the octets at the place where it stopped. */
  function Decode(udh: Octstr, s: Stop): ConcatInfo {
    if s.pos >= |udh| then NoConcat
    else
      var wide := if s.c == 8 then 1 else 0;
      var hi := GetChar(udh, s.pos + 2);
      var ref := if s.c == 8 then hi * 256 + GetChar(udh, s.pos + 3) else hi;
      var total := GetChar(udh, s.pos + 3 + wide);
      var part := GetChar(udh, s.pos + 4 + wide);
      if part < 1 || part > total then NoConcat
      else Concat(ref, total, part, WithoutElement(udh, s.pos, s.iel))
  }

  function ConcatOf(udh: Octstr): ConcatInfo {
    if udh == [] then NoConcat else Decode(udh, Scan(udh, Stop(1, -1, 0)))
  }

  /** The scanning loop itself. */
  method ParseConcat(udh: Octstr) returns (info: ConcatInfo)
    ensures info == ConcatOf(udh)
  {
    if udh == [] { return NoConcat; }
    var pos: nat, c: int, iel: nat := 1, -1, 0;
    while pos < |udh| - 1
      invariant pos >= 1
      invariant Scan(udh, Stop(pos, c, iel)) == Scan(udh, Stop(1, -1, 0))
      decreases |udh| - pos
    {
      iel := udh[pos + 1];
      c := udh[pos];
      if c == 0 || c == 8 { break; }
      pos := pos + iel + 2;
    }
    assert Scan(udh, Stop(1, -1, 0)) == Stop(pos, c, iel);
    info := Decode(udh, Stop(pos, c, iel));
  }

  /** From `pos` on the header is a row of complete elements, none of them 0 or 8. */
  predicate PlainElements(udh: Octstr, pos: nat)
    decreases |udh| - pos
  {
    || pos == |udh|
    || (pos + 1 < |udh| && pos + 2 + udh[pos + 1] <= |udh| && udh[pos] != 0 && udh[pos] != 8
        && PlainElements(udh, pos + 2 + udh[pos + 1]))
  }

  predicate WellFormed(udh: Octstr) {
    udh == [] || (udh[0] == |udh| - 1 && PlainElements(udh, 1))
  }

  /** The header the scanner hands back for an original header: a lone length octet is dropped. */
  function Restored(udh: Octstr): Octstr {
    if |udh| <= 1 then [] else udh
  }

  /** The scan walks over the original elements and stops at the added one. */
  lemma {:induction false} ScanSkipsPlain(udh: Octstr, longer: Octstr, at: Stop)
    requires 1 <= at.pos <= |udh| < |longer| - 1 && longer[1..|udh|] == udh[1..]
    requires PlainElements(udh, at.pos) && longer[|udh|] == 0
    ensures Scan(longer, at) == Stop(|udh|, 0, longer[|udh| + 1])
    decreases |udh| - at.pos
  {
    if at.pos < |udh| {
      assert forall i {:trigger longer[i]} :: 1 <= i < |udh| ==> longer[i] == longer[1..|udh|][i - 1] == udh[i];
      ScanSkipsPlain(udh, longer, Stop(at.pos + 2 + udh[at.pos + 1], udh[at.pos], udh[at.pos + 1]));
    }
  }

  /** The scanner stops exactly at the element the writer added. */
  lemma ScanFindsAdded(udh: Octstr, part: int, total: int, ref: int)
    requires WellFormed(udh)
    ensures var n := if udh == [] then 1 else |udh|;
            ConcatOf(AddConcat(udh, part, total, ref)) == Decode(AddConcat(udh, part, total, ref), Stop(n, 0, 3))
  {
    var base: Octstr := if udh == [] then [CATENATE_UDH_LEN] else udh;
    var u := AddConcat(udh, part, total, ref);
    assert u[1..|base|] == base[1..];
    ScanSkipsPlain(base, u, Stop(1, -1, 0));
  }

  lemma CutRestores(udh: Octstr, part: int, total: int, ref: int)
    requires WellFormed(udh)
    ensures var n := if udh == [] then 1 else |udh|;
            WithoutElement(AddConcat(udh, part, total, ref), n, 3) == Restored(udh)
  {
    var u := AddConcat(udh, part, total, ref);
    if |udh| > 1 {
      assert u[..|udh|][0 := (|udh| - 1) % 256] == udh;
    }
  }

  /** What is read back is what was written, octet by octet. */
  lemma DecodeAdded(udh: Octstr, part: int, total: int, ref: int)
    requires WellFormed(udh)
    ensures var info := ConcatOf(AddConcat(udh, part, total, ref));
            if part % 256 < 1 || part % 256 > total % 256 then info == NoConcat
            else info == Concat(ref % 256, total % 256, part % 256, Restored(udh))
  {
    ScanFindsAdded(udh, part, total, ref);
    CutRestores(udh, part, total, ref);
    var u, n := AddConcat(udh, part, total, ref), if udh == [] then 1 else |udh|;
    assert |u| == n + 5 && u[n + 2] == ref % 256 && u[n + 3] == total % 256 && u[n + 4] == part % 256;
  }

  /** Extraction inverts the writer on every well-formed header, for exactly the numbers
      that fit one octet; beyond that the truncated numbers are never the original ones. */
  lemma ExtractInvertsAdd(udh: Octstr, part: int, total: int, ref: int)
    requires WellFormed(udh) && 1 <= part <= total
    ensures ConcatOf(AddConcat(udh, part, total, ref)) == Concat(ref, total, part, Restored(udh))
       <==> total < 256 && 0 <= ref < 256
  {
    DecodeAdded(udh, part, total, ref);
    OneOctetEach(part, total, ref);
  }

  lemma OneOctetEach(part: int, total: int, ref: int)
    requires 1 <= part <= total
    ensures 1 <= part % 256 <= total % 256 && part % 256 == part && total % 256 == total && ref % 256 == ref
       <==> total < 256 && 0 <= ref < 256
  {
  }

  /** Beyond the range: of 256 parts none is recognised, and reference 256 comes back as 0. */
  lemma OutOfRange(part: int)
    requires 1 <= part <= 256
    ensures ConcatOf(AddConcat([], part, 256, 0)) == NoConcat
    ensures ConcatOf(AddConcat([], 1, 2, 256)) == Concat(0, 2, 1, Restored([]))
  {
    DecodeAdded([], part, 256, 0);
    DecodeAdded([], 1, 2, 256);
  }
}
