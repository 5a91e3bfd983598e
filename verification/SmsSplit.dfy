/** Cutting a message into parts (gw/sms.c). 7-bit text is ASCII, one octet a character;
    the characters of the GSM extension table cost two septets. */
module SmsSplit {
  import opened Octets
  import opened Messages
  import DlrFlags
  import Udh

  /** The arguments of sms_split besides the message; a NULL string is the empty one. */
  datatype Plan = Plan(header: Octstr, footer: Octstr, suffix: Octstr, splitChars: Octstr,
                       catenate: bool, sequence: int, maxMessages: int, maxOctets: int)

  // ----- lengths

  predicate Wide(coding: int) { coding == DC_8BIT || coding == DC_UCS2 }

  const EXTENSION: set<int> := {0x0c, 0x5b, 0x5c, 0x5d, 0x5e, 0x7b, 0x7c, 0x7d, 0x7e}

  function Weight(coding: int, c: Octet): (w: nat)
    ensures 1 <= w <= 2
  {
    if !Wide(coding) && c in EXTENSION then 2 else 1
  }

  /** What the text takes up in a part: octets for 8-bit and UCS-2, else septets. */
  function Units(coding: int, text: Octstr): nat {
    if text == [] then 0 else Weight(coding, text[0]) + Units(coding, text[1..])
  }

  /** sms_msgdata_len: septets for 7-bit text, octets for any other coding, the undefined one included. */
  function Length(coding: int, text: Octstr): nat { if coding == DC_7BIT then Units(coding, text) else |text| }

  /** The codings for which the two agree. */
  predicate Defined(coding: int) { coding == DC_7BIT || Wide(coding) }

  lemma {:induction false} UnitsCoverOctets(coding: int, text: Octstr)
    ensures |text| <= Units(coding, text)
  {
    if text != [] { UnitsCoverOctets(coding, text[1..]); }
  }

  lemma LengthBound(coding: int, text: Octstr)
    ensures Length(coding, text) <= Units(coding, text)
    ensures Defined(coding) ==> Length(coding, text) == Units(coding, text)
    ensures text == [] <==> Length(coding, text) == 0
  {
    UnitsCoverOctets(coding, text);
    if Wide(coding) { FlatUnits(coding, text); }
  }

  lemma LengthSuffix(coding: int, text: Octstr, j: nat)
    requires j <= |text|
    ensures Length(coding, text[j..]) <= Length(coding, text)
  {
    UnitsConcat(coding, text[..j], text[j..]);
    assert text == text[..j] + text[j..];
  }

  lemma {:induction false} UnitsConcat(coding: int, a: Octstr, b: Octstr)
    ensures Units(coding, a + b) == Units(coding, a) + Units(coding, b)
  {
    if a == [] {
      assert a + b == b;
    } else {
      UnitsConcat(coding, a[1..], b);
      assert (a + b)[1..] == a[1..] + b;
    }
  }

  /** Every character costs one unit: always so for 8-bit and UCS-2 text. */
  predicate Flat(coding: int, text: Octstr) {
    forall i :: 0 <= i < |text| ==> Weight(coding, text[i]) == 1
  }

  lemma {:induction false} FlatUnits(coding: int, text: Octstr)
    requires Flat(coding, text)
    ensures Units(coding, text) == |text|
  {
    if text != [] { FlatUnits(coding, text[1..]); }
  }

  /** C division: towards zero. */
  function TruncDiv(a: int, b: int): int
    requires b > 0
  {
    if a >= 0 then a / b else -(-a / b)
  }

  function Room(coding: int, maxOctets: int, udhLen: nat, hfLen: nat): int {
    if Wide(coding) then maxOctets - udhLen - hfLen else TruncDiv((maxOctets - udhLen) * 8, 7) - hfLen
  }

  function ConcatUdhLen(udh: Octstr): nat {
    (if udh == [] then 1 else |udh|) + Udh.CATENATE_UDH_LEN
  }

  /** The part limit before it is raised to zero. */
  function RawLimit(orig: Msg, p: Plan): int
    requires orig.Sms? && orig.msgdata.Some?
  {
    var hf, udh := |p.header| + |p.footer|, Value(orig.udhdata);
    var one := Room(orig.coding, p.maxOctets, |udh|, hf);
    if Length(orig.coding, orig.msgdata.value) > one && p.catenate
    then Room(orig.coding, p.maxOctets, ConcatUdhLen(udh), hf) else one
  }

  function Limit(orig: Msg, p: Plan): nat
    requires orig.Sms? && orig.msgdata.Some?
  {
    if RawLimit(orig, p) > 0 then RawLimit(orig, p) else 0
  }

  // ----- cutting the text

  /** The longest prefix of at most `k` units; an escape sequence is never cut in two. */
  function Fit(coding: int, text: Octstr, k: nat): (n: nat)
    ensures n <= |text| && Units(coding, text[..n]) <= k
    ensures n < |text| ==> Units(coding, text[..n]) + Weight(coding, text[n]) > k
  {
    if text == [] || Weight(coding, text[0]) > k then 0
    else
      var n := 1 + Fit(coding, text[1..], k - Weight(coding, text[0]));
      assert text[..n][1..] == text[1..][..n - 1];
      n
  }

  /** Backs up to just after the last split character among the first `i` octets, else keeps `n`. */
  function BackUp(text: Octstr, n: nat, splitChars: Octstr, i: nat): (r: nat)
    requires i <= n <= |text|
    ensures r <= n && (n > 0 ==> r > 0)
  {
    if i == 0 then n else if text[i - 1] in splitChars then i else BackUp(text, n, splitChars, i - 1)
  }

  function CutLen(coding: int, text: Octstr, k: nat, splitChars: Octstr): (n: nat)
    ensures n <= |text|
  {
    var n := Fit(coding, text, k);
    if n < |text| then BackUp(text, n, splitChars, n) else n
  }

  /** extract_msgdata_part_by_coding: takes the next part off the front of the text. */
  method ExtractPart(coding: int, text: Octstr, k: nat, splitChars: Octstr) returns (part: Octstr, rest: Octstr)
    ensures part == text[..CutLen(coding, text, k, splitChars)]
    ensures rest == text[CutLen(coding, text, k, splitChars)..]
  {
    var fit := Fit(coding, text, k);
    var len := fit;
    if fit < |text| {
      var i := fit;
      while i > 0
        invariant 0 <= i <= fit && len == fit
        invariant BackUp(text, fit, splitChars, i) == BackUp(text, fit, splitChars, fit)
      {
        if text[i - 1] in splitChars {
          len := i;
          break;
        }
        i := i - 1;
      }
    }
    part, rest := text[..len], text[len..];
  }

  /** A cut is stuck exactly when the next character alone is too wide for the part. */
  lemma CutStuckIff(coding: int, text: Octstr, k: nat, splitChars: Octstr)
    ensures CutLen(coding, text, k, splitChars) == 0 <==> text == [] || Weight(coding, text[0]) > k
  {
  }

  lemma {:induction false} FitWeights(coding: int, text: Octstr, k: nat, j: nat)
    requires j < Fit(coding, text, k)
    ensures Weight(coding, text[j]) <= k
  {
    if j > 0 { FitWeights(coding, text[1..], k - Weight(coding, text[0]), j - 1); }
  }

  /** The character at `j`, if it has to be cut off, is no wider than a part. */
  predicate Cuttable(coding: int, text: Octstr, l: nat, k: nat, j: nat)
    requires j < |text|
  {
    Length(coding, text[j..]) > l ==> Weight(coding, text[j]) <= k
  }

  predicate Advances(coding: int, text: Octstr, l: nat, k: nat) {
    forall j :: 0 <= j < |text| ==> Cuttable(coding, text, l, k, j)
  }

  lemma AdvancesAtEnd(coding: int, text: Octstr, l: nat, k: nat)
    requires Length(coding, text) <= l
    ensures Advances(coding, text, l, k)
  {
    forall j | 0 <= j < |text| ensures Cuttable(coding, text, l, k, j) { LengthSuffix(coding, text, j); }
  }

  /** One cut keeps the condition, and makes progress under it. */
  lemma AdvancesIff(coding: int, text: Octstr, l: nat, k: nat, splitChars: Octstr)
    requires Length(coding, text) > l
    ensures var n := CutLen(coding, text, k, splitChars);
            && (Advances(coding, text, l, k) <==> n > 0 && Advances(coding, text[n..], l, k))
  {
    var n := CutLen(coding, text, k, splitChars);
    LengthBound(coding, text);
    CutStuckIff(coding, text, k, splitChars);
    if Advances(coding, text, l, k) {
      assert Cuttable(coding, text, l, k, 0) && text[0..] == text;
      AdvancesOn(coding, text, l, k, n);
    }
    if n > 0 && Advances(coding, text[n..], l, k) { AdvancesBack(coding, text, l, k, n); }
  }

  lemma CutShortens(coding: int, text: Octstr, l: nat, k: nat, splitChars: Octstr)
    requires Length(coding, text) > l
    ensures Advances(coding, text, l, k) ==> CutLen(coding, text, k, splitChars) > 0
  {
    AdvancesIff(coding, text, l, k, splitChars);
  }

  lemma AdvancesOn(coding: int, text: Octstr, l: nat, k: nat, n: nat)
    requires n <= |text| && Advances(coding, text, l, k)
    ensures Advances(coding, text[n..], l, k)
  {
    forall j | 0 <= j < |text[n..]| ensures Cuttable(coding, text[n..], l, k, j) {
      assert Cuttable(coding, text, l, k, n + j) && text[n..][j..] == text[n + j..];
    }
  }

  lemma AdvancesBack(coding: int, text: Octstr, l: nat, k: nat, n: nat)
    requires n <= Fit(coding, text, k) && Advances(coding, text[n..], l, k)
    ensures Advances(coding, text, l, k)
  {
    forall j | 0 <= j < |text| ensures Cuttable(coding, text, l, k, j) {
      if j < n {
        FitWeights(coding, text, k, j);
      } else {
        assert Cuttable(coding, text[n..], l, k, j - n) && text[n..][j - n..] == text[j..];
      }
    }
  }

  /** The text left after `n` cuts. */
  function Left(coding: int, text: Octstr, k: nat, splitChars: Octstr, n: nat): Octstr
    decreases n
  {
    if n == 0 then text else Left(coding, text[CutLen(coding, text, k, splitChars)..], k, splitChars, n - 1)
  }

  /** Without a bound on the number of parts the loop comes to its end exactly under that condition. */
  lemma {:induction false} LoopEndsIff(coding: int, text: Octstr, l: nat, k: nat, splitChars: Octstr)
    ensures (exists n: nat :: Length(coding, Left(coding, text, k, splitChars, n)) <= l)
       <==> Advances(coding, text, l, k)
  {
    if n: nat :| Length(coding, Left(coding, text, k, splitChars, n)) <= l {
      EndReached(coding, text, l, k, splitChars, n);
    }
    if Advances(coding, text, l, k) { var n := EndExists(coding, text, l, k, splitChars); }
  }

  lemma {:induction false} EndReached(coding: int, text: Octstr, l: nat, k: nat, splitChars: Octstr, n: nat)
    requires Length(coding, Left(coding, text, k, splitChars, n)) <= l
    ensures Advances(coding, text, l, k)
    decreases n
  {
    if Length(coding, text) <= l {
      AdvancesAtEnd(coding, text, l, k);
    } else {
      var c := CutLen(coding, text, k, splitChars);
      EndReached(coding, text[c..], l, k, splitChars, n - 1);
      AdvancesBack(coding, text, l, k, c);
    }
  }

  lemma {:induction false} EndExists(coding: int, text: Octstr, l: nat, k: nat, splitChars: Octstr) returns (n: nat)
    requires Advances(coding, text, l, k)
    ensures Length(coding, Left(coding, text, k, splitChars, n)) <= l
    decreases |text|
  {
    if Length(coding, text) <= l {
      n := 0;
    } else {
      AdvancesIff(coding, text, l, k, splitChars);
      n := EndExists(coding, text[CutLen(coding, text, k, splitChars)..], l, k, splitChars);
      n := n + 1;
    }
  }

  /** What is left to do before the loop must end. */
  function Remaining(text: Octstr, msgno: int, maxMessages: int): nat {
    if msgno <= maxMessages then maxMessages - msgno else |text|
  }

  /** The texts of the parts from part `msgno` on: stop tests use the limit `l`, cuts use `k`. */
  function Chunks(coding: int, text: Octstr, l: nat, k: nat, splitChars: Octstr, msgno: nat, maxMessages: int)
    : (chunks: seq<Octstr>)
    requires msgno <= maxMessages || Advances(coding, text, l, k)
    ensures |chunks| >= 1 && (msgno <= maxMessages ==> |chunks| <= maxMessages - msgno + 1)
    decreases Remaining(text, msgno, maxMessages)
  {
    var n := CutLen(coding, text, k, splitChars);
    if Length(coding, text) <= l || msgno == maxMessages then [text[..n]]
    else
      AdvancesIff(coding, text, l, k, splitChars);
      [text[..n]] + Chunks(coding, text[n..], l, k, splitChars, msgno + 1, maxMessages)
  }

  // ----- building the parts

  /** The source's demands: text present, room for the suffix, and a loop that ends (`LoopEndsIff`). */
  predicate Splittable(orig: Msg, p: Plan) {
    && orig.Sms? && orig.msgdata.Some?
    && |p.suffix| <= Limit(orig, p)
    && (p.maxMessages >= 1
        || Advances(orig.coding, orig.msgdata.value, Limit(orig, p), Limit(orig, p) - |p.suffix|))
  }

  function Texts(orig: Msg, p: Plan): (chunks: seq<Octstr>)
    requires Splittable(orig, p)
  {
    Chunks(orig.coding, orig.msgdata.value, Limit(orig, p), Limit(orig, p) - |p.suffix|, p.splitChars, 1, p.maxMessages)
  }

  /** A part as the first loop leaves it, `i` counting from zero. */
  function BarePart(orig: Msg, p: Plan, newId: nat -> Uuid, chunk: Octstr, i: nat, last: bool): SmsMsg
    requires orig.Sms?
  {
    var text := p.header + chunk + p.footer + (if last then [] else p.suffix);
    var part := orig.(msgdata := Some(text), id := if last then orig.id else newId(i + 1));
    if i > 0 && DlrFlags.Enabled(orig.dlrMask) then part.(dlrUrl := None, dlrMask := 0) else part
  }

  /** prepend_catenation_udh on a message. */
  function WithConcat(part: SmsMsg, partNo: int, total: int, ref: int): SmsMsg {
    part.(udhdata := Some(Udh.AddConcat(Value(part.udhdata), partNo, total, ref)),
          msgLeft := if partNo < total then total - partNo else 0)
  }

  function PartAt(orig: Msg, p: Plan, newId: nat -> Uuid, chunks: seq<Octstr>, i: nat): SmsMsg
    requires orig.Sms? && i < |chunks|
  {
    var bare := BarePart(orig, p, newId, chunks[i], i, i == |chunks| - 1);
    if p.catenate && |chunks| > 1 then WithConcat(bare, i + 1, |chunks|, p.sequence) else bare
  }

  function Split(orig: Msg, p: Plan, newId: nat -> Uuid): (parts: seq<SmsMsg>)
    requires Splittable(orig, p)
    ensures |parts| == |Texts(orig, p)|
    ensures forall i :: 0 <= i < |parts| ==> parts[i] == PartAt(orig, p, newId, Texts(orig, p), i)
  {
    var chunks := Texts(orig, p);
    seq(|chunks|, i requires 0 <= i < |chunks| => PartAt(orig, p, newId, chunks, i))
  }

  /** The first `n` parts before the headers are added. */
  function BareParts(orig: Msg, p: Plan, newId: nat -> Uuid, chunks: seq<Octstr>, n: nat): (parts: seq<SmsMsg>)
    requires orig.Sms? && n <= |chunks|
    ensures |parts| == n
    ensures forall i :: 0 <= i < n ==> parts[i] == BarePart(orig, p, newId, chunks[i], i, i == |chunks| - 1)
  {
    if n == 0 then []
    else BareParts(orig, p, newId, chunks, n - 1) + [BarePart(orig, p, newId, chunks[n - 1], n - 1, n == |chunks|)]
  }

  /** The first loop of sms_split, up to the headers. */
  method CutParts(orig: Msg, p: Plan, newId: nat -> Uuid, limit: nat, k: nat, ghost all: seq<Octstr>)
      returns (list: seq<SmsMsg>)
    requires orig.Sms? && orig.msgdata.Some?
    requires p.maxMessages >= 1 || Advances(orig.coding, orig.msgdata.value, limit, k)
    requires all == Chunks(orig.coding, orig.msgdata.value, limit, k, p.splitChars, 1, p.maxMessages)
    ensures list == BareParts(orig, p, newId, all, |all|)
  {
    var temp := orig.msgdata.value;
    var msgno := 0;
    var last := false;
    list := [];
    while !last
      invariant 0 <= msgno <= |all| && (last ==> msgno == |all|)
      invariant last || msgno < p.maxMessages || Advances(orig.coding, temp, limit, k)
      invariant !last ==> all[msgno..] == Chunks(orig.coding, temp, limit, k, p.splitChars, msgno + 1, p.maxMessages)
      invariant list == BareParts(orig, p, newId, all, msgno)
      decreases !last, Remaining(temp, msgno + 1, p.maxMessages)
    {
      ghost var todo := all[msgno..];
      msgno := msgno + 1;
      if Length(orig.coding, temp) <= limit || msgno == p.maxMessages {
        last := true;
      } else {
        AdvancesIff(orig.coding, temp, limit, k, p.splitChars);
      }
      var text, rest := ExtractPart(orig.coding, temp, k, p.splitChars);
      assert todo[0] == text && all[msgno - 1] == todo[0] && all[msgno..] == todo[1..];
      list := list + [BarePart(orig, p, newId, text, msgno - 1, last)];
      temp := rest;
    }
  }

  /** sms_split. `newId` stands for the random identifiers given to all parts but the last. */
  method SmsSplit(orig: Msg, p: Plan, newId: nat -> Uuid) returns (list: seq<SmsMsg>)
    requires Splittable(orig, p)
    ensures list == Split(orig, p, newId)
  {
    ghost var all := Texts(orig, p);
    list := CutParts(orig, p, newId, Limit(orig, p), Limit(orig, p) - |p.suffix|, all);
    if p.catenate && |list| > 1 {
      list := AddHeaders(list, p.sequence);
    }
  }

  /** The second loop of sms_split. */
  method AddHeaders(bare: seq<SmsMsg>, sequence: int) returns (list: seq<SmsMsg>)
    ensures |list| == |bare|
    ensures forall i :: 0 <= i < |bare| ==> list[i] == WithConcat(bare[i], i + 1, |bare|, sequence)
  {
    list := bare;
    for m := 1 to |bare| + 1
      invariant |list| == |bare|
      invariant forall i :: 0 <= i < |bare| ==>
        list[i] == if i < m - 1 then WithConcat(bare[i], i + 1, |bare|, sequence) else bare[i]
    {
      list := list[m - 1 := WithConcat(list[m - 1], m, |bare|, sequence)];
    }
  }

  // ----- no text is lost, and when it is

  lemma {:induction false} ChunksArePrefix(coding: int, text: Octstr, l: nat, k: nat, splitChars: Octstr, msgno: nat,
                                           maxMessages: int)
    requires msgno <= maxMessages || Advances(coding, text, l, k)
    ensures Join(Chunks(coding, text, l, k, splitChars, msgno, maxMessages)) <= text
    decreases Remaining(text, msgno, maxMessages)
  {
    var n := CutLen(coding, text, k, splitChars);
    if Length(coding, text) <= l || msgno == maxMessages {
      assert Join([text[..n]]) == text[..n] + Join([]);
    } else {
      AdvancesIff(coding, text, l, k, splitChars);
      ChunksArePrefix(coding, text[n..], l, k, splitChars, msgno + 1, maxMessages);
      PrefixStep(text, n, Chunks(coding, text[n..], l, k, splitChars, msgno + 1, maxMessages));
    }
  }

  lemma PrefixStep(text: Octstr, n: nat, rest: seq<Octstr>)
    requires n <= |text| && Join(rest) <= text[n..]
    ensures Join([text[..n]] + rest) <= text
  {
    assert ([text[..n]] + rest)[1..] == rest;
    assert text == text[..n] + text[n..];
  }

  /** How many cuts it takes until the rest passes the stop test. */
  function Cuts(coding: int, text: Octstr, l: nat, k: nat, splitChars: Octstr): nat
    requires Advances(coding, text, l, k)
    decreases |text|
  {
    if Length(coding, text) <= l then 0
    else
      AdvancesIff(coding, text, l, k, splitChars);
      1 + Cuts(coding, text[CutLen(coding, text, k, splitChars)..], l, k, splitChars)
  }

  /** That rest. */
  function LastRest(coding: int, text: Octstr, l: nat, k: nat, splitChars: Octstr): (rest: Octstr)
    requires Advances(coding, text, l, k)
    ensures Length(coding, rest) <= l
    decreases |text|
  {
    if Length(coding, text) <= l then text
    else
      AdvancesIff(coding, text, l, k, splitChars);
      LastRest(coding, text[CutLen(coding, text, k, splitChars)..], l, k, splitChars)
  }

  /** Enough parts are allowed, and the rest at the last cut fits the limit `k` that leaves room
      for the suffix, although the stop test compares it with `l`. */
  predicate Lossless(coding: int, text: Octstr, l: nat, k: nat, splitChars: Octstr, msgno: nat, maxMessages: int) {
    && Advances(coding, text, l, k)
    && (maxMessages < 1 || Cuts(coding, text, l, k, splitChars) <= maxMessages - msgno)
    && Units(coding, LastRest(coding, text, l, k, splitChars)) <= k
  }

  lemma FitsWholeIff(coding: int, text: Octstr, k: nat, splitChars: Octstr)
    ensures CutLen(coding, text, k, splitChars) == |text| <==> Units(coding, text) <= k
  {
    var n := Fit(coding, text, k);
    assert text == text[..n] + text[n..];
    UnitsConcat(coding, text[..n], text[n..]);
    if n == |text| { assert text[..n] == text; } else { assert text[n..][0] == text[n]; }
  }

  lemma LastChunk(text: Octstr, n: nat)
    requires n <= |text|
    ensures Join([text[..n]]) == text <==> n == |text|
  {
    assert Join([text[..n]]) == text[..n] + Join([]);
  }

  lemma CancelPrefix(text: Octstr, n: nat, rest: seq<Octstr>)
    requires n <= |text|
    ensures Join([text[..n]] + rest) == text <==> Join(rest) == text[n..]
  {
    assert ([text[..n]] + rest)[1..] == rest;
    assert text == text[..n] + text[n..];
    assert (text[..n] + Join(rest))[n..] == Join(rest);
  }

  /** The last chunk carries all that is left exactly when the text is lossless from there on. */
  lemma LosslessEnd(coding: int, text: Octstr, l: nat, k: nat, splitChars: Octstr, msgno: nat, maxMessages: int)
    requires k <= l && 1 <= msgno && (Length(coding, text) <= l || msgno == maxMessages)
    requires msgno <= maxMessages || maxMessages < 1
    ensures CutLen(coding, text, k, splitChars) == |text|
       <==> Lossless(coding, text, l, k, splitChars, msgno, maxMessages)
  {
    FitsWholeIff(coding, text, k, splitChars);
    LengthBound(coding, text);
    if Length(coding, text) <= l { AdvancesAtEnd(coding, text, l, k); }
  }

  /** One cut changes nothing; a stuck one never gets anywhere. */
  lemma LosslessStep(coding: int, text: Octstr, l: nat, k: nat, splitChars: Octstr, msgno: nat, maxMessages: int,
                     n: nat)
    requires Length(coding, text) > l && n == CutLen(coding, text, k, splitChars)
    ensures Lossless(coding, text, l, k, splitChars, msgno, maxMessages)
       <==> Lossless(coding, text[n..], l, k, splitChars, msgno + 1, maxMessages)
  {
    AdvancesIff(coding, text, l, k, splitChars);
    assert text[0..] == text;
  }

  lemma JoinStep(coding: int, text: Octstr, l: nat, k: nat, splitChars: Octstr, msgno: nat, maxMessages: int, n: nat)
    requires Length(coding, text) > l && msgno != maxMessages && n == CutLen(coding, text, k, splitChars)
    requires msgno <= maxMessages || Advances(coding, text, l, k)
    ensures msgno + 1 <= maxMessages || Advances(coding, text[n..], l, k)
    ensures Join(Chunks(coding, text, l, k, splitChars, msgno, maxMessages)) == text
       <==> Join(Chunks(coding, text[n..], l, k, splitChars, msgno + 1, maxMessages)) == text[n..]
  {
    AdvancesIff(coding, text, l, k, splitChars);
    CancelPrefix(text, n, Chunks(coding, text[n..], l, k, splitChars, msgno + 1, maxMessages));
  }

  lemma JoinEnd(coding: int, text: Octstr, l: nat, k: nat, splitChars: Octstr, msgno: nat, maxMessages: int)
    requires k <= l && 1 <= msgno && (Length(coding, text) <= l || msgno == maxMessages)
    requires msgno <= maxMessages || (maxMessages < 1 && Advances(coding, text, l, k))
    ensures Join(Chunks(coding, text, l, k, splitChars, msgno, maxMessages)) == text
       <==> Lossless(coding, text, l, k, splitChars, msgno, maxMessages)
  {
    LastChunk(text, CutLen(coding, text, k, splitChars));
    LosslessEnd(coding, text, l, k, splitChars, msgno, maxMessages);
  }

  /** The parts carry the whole text exactly then, for every coding, text, limit and set of split characters. */
  lemma {:induction false} LosslessIff(coding: int, text: Octstr, l: nat, k: nat, splitChars: Octstr, msgno: nat,
                                       maxMessages: int)
    requires k <= l && 1 <= msgno
    requires msgno <= maxMessages || (maxMessages < 1 && Advances(coding, text, l, k))
    ensures Join(Chunks(coding, text, l, k, splitChars, msgno, maxMessages)) == text
       <==> Lossless(coding, text, l, k, splitChars, msgno, maxMessages)
    decreases Remaining(text, msgno, maxMessages)
  {
    var n := CutLen(coding, text, k, splitChars);
    if Length(coding, text) <= l || msgno == maxMessages {
      JoinEnd(coding, text, l, k, splitChars, msgno, maxMessages);
    } else {
      CutShortens(coding, text, l, k, splitChars);
      JoinStep(coding, text, l, k, splitChars, msgno, maxMessages, n);
      LosslessIff(coding, text[n..], l, k, splitChars, msgno + 1, maxMessages);
      LosslessStep(coding, text, l, k, splitChars, msgno, maxMessages, n);
    }
  }

  /** The room for text in a part. */
  function CutRoom(orig: Msg, p: Plan): nat
    requires Splittable(orig, p)
  {
    Limit(orig, p) - |p.suffix|
  }

  /** The condition for a whole message. */
  predicate Uncut(orig: Msg, p: Plan)
    requires Splittable(orig, p)
  {
    Lossless(orig.coding, orig.msgdata.value, Limit(orig, p), CutRoom(orig, p), p.splitChars, 1, p.maxMessages)
  }

  lemma UncutIff(orig: Msg, p: Plan)
    requires Splittable(orig, p)
    ensures Join(Texts(orig, p)) == orig.msgdata.value <==> Uncut(orig, p)
  {
    UncutWith(orig, p, Limit(orig, p), CutRoom(orig, p));
  }

  lemma UncutWith(orig: Msg, p: Plan, l: nat, k: nat)
    requires Splittable(orig, p) && l == Limit(orig, p) && k == CutRoom(orig, p)
    ensures Join(Texts(orig, p)) == orig.msgdata.value
       <==> Lossless(orig.coding, orig.msgdata.value, l, k, p.splitChars, 1, p.maxMessages)
  {
    LosslessIff(orig.coding, orig.msgdata.value, l, k, p.splitChars, 1, p.maxMessages);
  }

  /** With a defined coding and no suffix only the number of parts limits the text. */
  lemma LosslessWithoutSuffix(coding: int, text: Octstr, l: nat, splitChars: Octstr, msgno: nat, maxMessages: int)
    requires Defined(coding)
    ensures Lossless(coding, text, l, l, splitChars, msgno, maxMessages)
       <==> && Advances(coding, text, l, l)
            && (maxMessages < 1 || Cuts(coding, text, l, l, splitChars) <= maxMessages - msgno)
  {
    if Advances(coding, text, l, l) { LengthBound(coding, LastRest(coding, text, l, l, splitChars)); }
  }

  lemma WholeWithoutSuffix(coding: int, text: Octstr, l: nat, splitChars: Octstr, maxMessages: nat)
    requires Defined(coding) && 1 <= maxMessages
    ensures Join(Chunks(coding, text, l, l, splitChars, 1, maxMessages)) == text
       <==> Advances(coding, text, l, l) && Cuts(coding, text, l, l, splitChars) <= maxMessages - 1
  {
    LosslessIff(coding, text, l, l, splitChars, 1, maxMessages);
    LosslessWithoutSuffix(coding, text, l, splitChars, 1, maxMessages);
  }

  /** As many parts as cuts, and the last one, unless cut off. */
  lemma {:induction false} ChunkCount(coding: int, text: Octstr, l: nat, k: nat, splitChars: Octstr, msgno: nat,
                                      maxMessages: int)
    requires Advances(coding, text, l, k) && 1 <= msgno && (msgno <= maxMessages || maxMessages < 1)
    ensures var cuts := Cuts(coding, text, l, k, splitChars);
            |Chunks(coding, text, l, k, splitChars, msgno, maxMessages)|
              == 1 + if maxMessages < 1 || cuts <= maxMessages - msgno then cuts else maxMessages - msgno
    decreases Remaining(text, msgno, maxMessages)
  {
    if Length(coding, text) > l && msgno != maxMessages {
      AdvancesIff(coding, text, l, k, splitChars);
      ChunkCount(coding, text[CutLen(coding, text, k, splitChars)..], l, k, splitChars, msgno + 1, maxMessages);
    }
  }

  // ----- the same in closed form, for text of one unit a character and no split characters

  function FlatCuts(n: nat, l: nat, k: nat): nat
    requires 1 <= k <= l
  {
    if n <= l then 0 else 1 + FlatCuts(n - k, l, k)
  }

  function FlatRest(n: nat, l: nat, k: nat): nat
    requires 1 <= k <= l
  {
    if n <= l then n else FlatRest(n - k, l, k)
  }

  lemma {:induction false} FlatRestClosed(n: nat, l: nat, k: nat)
    requires 1 <= k <= l
    ensures FlatRest(n, l, k) == n - FlatCuts(n, l, k) * k
  {
    if n > l {
      FlatRestClosed(n - k, l, k);
      Distribute(FlatCuts(n - k, l, k), 1, k);
    }
  }

  lemma Distribute(x: int, y: int, k: int)
    ensures (x + y) * k == x * k + y * k
  {
  }

  lemma NonNegative(x: int, k: int)
    requires x >= 0 && k >= 0
    ensures x * k >= 0
  {
  }

  lemma DivUnique(a: nat, k: nat, q: nat)
    requires k >= 1 && q * k <= a < q * k + k
    ensures a / k == q
  {
    var d := a / k;
    if d < q {
      Distribute(d + 1, q - d - 1, k);
      Distribute(d, 1, k);
      NonNegative(q - d - 1, k);
    } else if d > q {
      Distribute(q + 1, d - q - 1, k);
      Distribute(q, 1, k);
      NonNegative(d - q - 1, k);
    }
  }

  lemma {:induction false} FlatCutsClosed(n: nat, l: nat, k: nat)
    requires 1 <= k <= l
    ensures FlatCuts(n, l, k) == if n <= l then 0 else (n - l + k - 1) / k
  {
    if n > l {
      FlatCutsClosed(n - k, l, k);
      DivPlusOne(n - l - 1, k);
      if n - k <= l { DivUnique(n - l - 1, k, 0); }
    }
  }

  lemma DivPlusOne(x: nat, k: nat)
    requires k >= 1
    ensures (x + k) / k == x / k + 1
  {
    assert x == x / k * k + x % k;
    Distribute(x / k, 1, k);
    DivUnique(x + k, k, x / k + 1);
  }

  /** One cut of flat text without split characters takes exactly the limit. */
  lemma FlatCut(coding: int, text: Octstr, k: nat)
    requires Flat(coding, text)
    ensures Units(coding, text) == Length(coding, text) == |text|
    ensures CutLen(coding, text, k, []) == if k < |text| then k else |text|
  {
    FlatUnits(coding, text);
    FlatFit(coding, text, k);
    NoSplitChars(text, Fit(coding, text, k), Fit(coding, text, k));
  }

  lemma {:induction false} FlatFit(coding: int, text: Octstr, k: nat)
    requires Flat(coding, text)
    ensures Fit(coding, text, k) == if k < |text| then k else |text|
  {
    if text != [] && k > 0 { FlatFit(coding, text[1..], k - 1); }
  }

  lemma {:induction false} NoSplitChars(text: Octstr, n: nat, i: nat)
    requires i <= n <= |text|
    ensures BackUp(text, n, [], i) == n
  {
    if i > 0 { NoSplitChars(text, n, i - 1); }
  }

  lemma FlatAdvances(coding: int, text: Octstr, l: nat, k: nat)
    requires Flat(coding, text) && 1 <= k
    ensures Advances(coding, text, l, k)
  {
    forall j | 0 <= j < |text| ensures Cuttable(coding, text, l, k, j) {}
  }

  lemma FlatCutStep(coding: int, text: Octstr, l: nat, k: nat)
    requires Flat(coding, text) && 1 <= k <= l < |text|
    ensures Advances(coding, text, l, k) && Flat(coding, text[k..]) && Advances(coding, text[k..], l, k)
    ensures Cuts(coding, text, l, k, []) == 1 + Cuts(coding, text[k..], l, k, [])
    ensures LastRest(coding, text, l, k, []) == LastRest(coding, text[k..], l, k, [])
  {
    FlatCut(coding, text, k);
    FlatAdvances(coding, text, l, k);
    FlatAdvances(coding, text[k..], l, k);
  }

  lemma FlatEnd(coding: int, text: Octstr, l: nat, k: nat)
    requires Flat(coding, text) && 1 <= k && |text| <= l
    ensures Advances(coding, text, l, k) && Cuts(coding, text, l, k, []) == 0
    ensures LastRest(coding, text, l, k, []) == text && Units(coding, text) == |text|
  {
    FlatAdvances(coding, text, l, k);
    FlatUnits(coding, text);
  }

  lemma {:induction false} FlatCutsAre(coding: int, text: Octstr, n: nat, l: nat, k: nat)
    requires Flat(coding, text) && n == |text| && 1 <= k <= l
    ensures Advances(coding, text, l, k) && Cuts(coding, text, l, k, []) == FlatCuts(n, l, k)
    decreases n
  {
    if n <= l {
      FlatEnd(coding, text, l, k);
    } else {
      FlatCutStep(coding, text, l, k);
      FlatCutsAre(coding, text[k..], n - k, l, k);
    }
  }

  lemma {:induction false} FlatRestIs(coding: int, text: Octstr, n: nat, l: nat, k: nat)
    requires Flat(coding, text) && n == |text| && 1 <= k <= l
    ensures Advances(coding, text, l, k)
    ensures Units(coding, LastRest(coding, text, l, k, [])) == FlatRest(n, l, k)
    decreases n
  {
    if n <= l {
      FlatEnd(coding, text, l, k);
    } else {
      FlatCutStep(coding, text, l, k);
      FlatRestIs(coding, text[k..], n - k, l, k);
    }
  }

  lemma LosslessFlat(coding: int, text: Octstr, l: nat, k: nat, msgno: nat, maxMessages: int)
    requires Flat(coding, text) && 1 <= k <= l
    ensures var c := FlatCuts(|text|, l, k);
            (Lossless(coding, text, l, k, [], msgno, maxMessages)
             <==> (maxMessages < 1 || c <= maxMessages - msgno) && |text| - c * k <= k)
  {
    FlatCutsAre(coding, text, |text|, l, k);
    FlatRestIs(coding, text, |text|, l, k);
    FlatRestClosed(|text|, l, k);
  }

  /** Without a suffix: as many characters as the parts can hold. */
  lemma {:induction false} FlatCutsFit(n: nat, l: nat, parts: nat)
    requires 1 <= l && 1 <= parts
    ensures FlatCuts(n, l, l) <= parts - 1 <==> n <= parts * l
    ensures n - FlatCuts(n, l, l) * l <= l
    decreases n
  {
    Distribute(parts - 1, 1, l);
    NonNegative(parts - 1, l);
    if n > l {
      Distribute(FlatCuts(n - l, l, l), 1, l);
      FlatCutsFit(n - l, l, if parts > 1 then parts - 1 else 1);
    }
  }

  lemma FlatPartsHold(coding: int, text: Octstr, l: nat, parts: nat)
    requires Flat(coding, text) && 1 <= l && 1 <= parts
    ensures Join(Chunks(coding, text, l, l, [], 1, parts)) == text <==> |text| <= parts * l
  {
    LosslessIff(coding, text, l, l, [], 1, parts);
    LosslessFlat(coding, text, l, l, 1, parts);
    FlatCutsFit(|text|, l, parts);
  }

  /** A suffix can cost text: ten octets pass the stop test for a limit of ten, but with two octets
      kept for the suffix the only part takes eight of them. */
  lemma SuffixLosesText(text: Octstr)
    requires |text| == 10
    ensures Join(Chunks(DC_8BIT, text, 10, 8, [], 1, 255)) != text
  {
    LosslessIff(DC_8BIT, text, 10, 8, [], 1, 255);
    LosslessFlat(DC_8BIT, text, 10, 8, 1, 255);
  }

  /** So can an undefined coding: the stop test counts octets, the cut septets. */
  lemma UndefinedCodingLosesText(coding: int)
    requires !Defined(coding)
    ensures Join(Chunks(coding, [0x7b, 0x7d], 2, 2, [], 1, 255)) != [0x7b, 0x7d]
  {
    var text: Octstr := [0x7b, 0x7d];
    LosslessIff(coding, text, 2, 2, [], 1, 255);
    assert text[1..] == [0x7d] && text[1..][1..] == [];
    assert Units(coding, text) == 4;
  }

  /** A loop that never ends: one septet of room and a character that needs two. */
  lemma LoopsForEver()
    ensures !exists n: nat :: Length(DC_7BIT, Left(DC_7BIT, [0x7b], 1, [], n)) <= 1
  {
    var text: Octstr := [0x7b];
    assert !Cuttable(DC_7BIT, text, 1, 1, 0) by { assert text[0..] == text && text[1..] == []; }
    LoopEndsIff(DC_7BIT, text, 1, 1, []);
  }

  /** The split that smscconn_send asks for: at most 255 parts, no decoration. */
  function SendPlan(sequence: int, maxOctets: int): Plan {
    Plan([], [], [], [], true, sequence, 255, maxOctets)
  }

  /** The parts sent to an SMS centre carry the whole text exactly when 254 cuts are enough. */
  lemma SendLossless(orig: Msg, sequence: int, maxOctets: int)
    requires orig.Sms? && orig.msgdata.Some? && Defined(orig.coding)
    ensures var p, text := SendPlan(sequence, maxOctets), orig.msgdata.value;
            var l := Limit(orig, p);
            (Join(Texts(orig, p)) == text
             <==> Advances(orig.coding, text, l, l) && Cuts(orig.coding, text, l, l, []) <= 254)
  {
    var l := Limit(orig, SendPlan(sequence, maxOctets));
    SendTexts(orig, sequence, maxOctets, l);
    WholeWithoutSuffix(orig.coding, orig.msgdata.value, l, [], 255);
  }

  lemma SendTexts(orig: Msg, sequence: int, maxOctets: int, l: nat)
    requires orig.Sms? && orig.msgdata.Some? && l == Limit(orig, SendPlan(sequence, maxOctets))
    ensures Texts(orig, SendPlan(sequence, maxOctets)) == Chunks(orig.coding, orig.msgdata.value, l, l, [], 1, 255)
  {
  }

  /** In closed form for text without escaped characters, so for all 8-bit and UCS-2 text. */
  lemma SendLosslessFlat(orig: Msg, sequence: int, maxOctets: int)
    requires orig.Sms? && orig.msgdata.Some? && Flat(orig.coding, orig.msgdata.value)
    requires Limit(orig, SendPlan(sequence, maxOctets)) >= 1
    ensures Join(Texts(orig, SendPlan(sequence, maxOctets))) == orig.msgdata.value
       <==> |orig.msgdata.value| <= 255 * Limit(orig, SendPlan(sequence, maxOctets))
  {
    FlatPartsHold(orig.coding, orig.msgdata.value, Limit(orig, SendPlan(sequence, maxOctets)), 255);
  }

  // ----- every part fits

  lemma PrefixUnits(coding: int, text: Octstr, n: nat, k: nat)
    requires n <= Fit(coding, text, k)
    ensures Units(coding, text[..n]) <= k
  {
    var m := Fit(coding, text, k);
    assert text[..m] == text[..n] + text[n..m];
    UnitsConcat(coding, text[..n], text[n..m]);
  }

  predicate AllWithin(coding: int, chunks: seq<Octstr>, k: nat) {
    forall chunk :: chunk in chunks ==> Units(coding, chunk) <= k
  }

  lemma {:induction false} ChunkSizes(coding: int, text: Octstr, l: nat, k: nat, splitChars: Octstr, msgno: nat,
                                      maxMessages: int)
    requires msgno <= maxMessages || Advances(coding, text, l, k)
    ensures AllWithin(coding, Chunks(coding, text, l, k, splitChars, msgno, maxMessages), k)
    decreases Remaining(text, msgno, maxMessages)
  {
    var n := CutLen(coding, text, k, splitChars);
    PrefixUnits(coding, text, n, k);
    if Length(coding, text) > l && msgno != maxMessages {
      AdvancesIff(coding, text, l, k, splitChars);
      ChunkSizes(coding, text[n..], l, k, splitChars, msgno + 1, maxMessages);
    }
  }

  /** The length of the header a part of this message ends up with. */
  function PartUdhLen(orig: Msg, p: Plan): nat
    requires Splittable(orig, p)
  {
    if p.catenate && |Texts(orig, p)| > 1 then ConcatUdhLen(Value(orig.udhdata)) else |Value(orig.udhdata)|
  }

  /** The limit never assumes a shorter header than the parts really get. */
  lemma LimitCoversHeader(orig: Msg, p: Plan)
    requires Splittable(orig, p)
    ensures RawLimit(orig, p) <= Room(orig.coding, p.maxOctets, PartUdhLen(orig, p), |p.header| + |p.footer|)
    ensures (p.catenate && |Texts(orig, p)| == 1)
         || RawLimit(orig, p) == Room(orig.coding, p.maxOctets, PartUdhLen(orig, p), |p.header| + |p.footer|)
  {
    var hf, udh := |p.header| + |p.footer|, Value(orig.udhdata);
    RoomShrinks(orig.coding, p.maxOctets, |udh|, ConcatUdhLen(udh), hf);
    if Length(orig.coding, orig.msgdata.value) <= Room(orig.coding, p.maxOctets, |udh|, hf) { OnePart(orig, p); }
  }

  lemma RoomShrinks(coding: int, maxOctets: int, less: nat, more: nat, hf: nat)
    requires less <= more
    ensures Room(coding, maxOctets, more, hf) <= Room(coding, maxOctets, less, hf)
  {
  }

  lemma OnePart(orig: Msg, p: Plan)
    requires Splittable(orig, p)
    requires Length(orig.coding, orig.msgdata.value)
          <= Room(orig.coding, p.maxOctets, |Value(orig.udhdata)|, |p.header| + |p.footer|)
    ensures |Texts(orig, p)| == 1
  {
  }

  /** The decoration of a part. */
  function Trim(p: Plan, last: bool): Octstr { p.header + p.footer + (if last then [] else p.suffix) }

  lemma TextUnits(coding: int, p: Plan, chunk: Octstr, last: bool)
    ensures Units(coding, p.header + chunk + p.footer + (if last then [] else p.suffix))
         == Units(coding, chunk) + Units(coding, Trim(p, last))
  {
    var suffix := if last then [] else p.suffix;
    UnitsConcat(coding, p.header + chunk + p.footer, suffix);
    UnitsConcat(coding, p.header + chunk, p.footer);
    UnitsConcat(coding, p.header, chunk);
    UnitsConcat(coding, p.header + p.footer, suffix);
    UnitsConcat(coding, p.header, p.footer);
  }

  lemma TextsWithin(orig: Msg, p: Plan, i: nat)
    requires Splittable(orig, p) && i < |Texts(orig, p)|
    ensures Units(orig.coding, Texts(orig, p)[i]) <= Limit(orig, p) - |p.suffix|
  {
    var k := Limit(orig, p) - |p.suffix|;
    ChunkSizes(orig.coding, orig.msgdata.value, Limit(orig, p), k, p.splitChars, 1, p.maxMessages);
    assert AllWithin(orig.coding, Texts(orig, p), k);
    assert Texts(orig, p)[i] in Texts(orig, p);
  }

  lemma PartShape(orig: Msg, p: Plan, newId: nat -> Uuid, i: nat)
    requires Splittable(orig, p) && i < |Texts(orig, p)|
    ensures var part, chunks := Split(orig, p, newId)[i], Texts(orig, p);
            && |Value(part.udhdata)| == PartUdhLen(orig, p)
            && part.msgdata == Some(p.header + chunks[i] + p.footer + (if i == |chunks| - 1 then [] else p.suffix))
  {
  }

  /** A numbered part keeps the addresses and carries the extended header. */
  lemma PartNumbered(orig: Msg, p: Plan, newId: nat -> Uuid, i: nat)
    requires Splittable(orig, p) && i < |Texts(orig, p)| && p.catenate && |Texts(orig, p)| > 1
    ensures var part := Split(orig, p, newId)[i];
            && part.sender == orig.sender && part.receiver == orig.receiver
            && part.udhdata == Some(Udh.AddConcat(Value(orig.udhdata), i + 1, |Texts(orig, p)|, p.sequence))
  {
  }

  /** A part takes its text and its decoration; the text is within the limit less the suffix. */
  lemma PartUnits(orig: Msg, p: Plan, newId: nat -> Uuid, i: nat)
    requires Splittable(orig, p) && i < |Texts(orig, p)|
    ensures var part, chunk := Split(orig, p, newId)[i], Texts(orig, p)[i];
            && part.msgdata.Some? && |Value(part.udhdata)| == PartUdhLen(orig, p)
            && Units(orig.coding, part.msgdata.value)
            == Units(orig.coding, chunk) + Units(orig.coding, Trim(p, i == |Texts(orig, p)| - 1))
            && Units(orig.coding, chunk) <= Limit(orig, p) - |p.suffix|
  {
    PartShape(orig, p, newId, i);
    TextsWithin(orig, p, i);
    TextUnits(orig.coding, p, Texts(orig, p)[i], i == |Texts(orig, p)| - 1);
  }

  /** With a decoration of one unit a character every part stays within the limit plus header and footer. */
  lemma PartWithinLimit(orig: Msg, p: Plan, newId: nat -> Uuid, i: nat)
    requires Splittable(orig, p) && i < |Texts(orig, p)|
    requires Flat(orig.coding, Trim(p, i == |Texts(orig, p)| - 1))
    ensures var part := Split(orig, p, newId)[i];
            && part.msgdata.Some? && |Value(part.udhdata)| == PartUdhLen(orig, p)
            && |p.header| + |p.footer| <= Units(orig.coding, part.msgdata.value)
                                       <= Limit(orig, p) + |p.header| + |p.footer|
  {
    PartUnits(orig, p, newId, i);
    FlatUnits(orig.coding, Trim(p, i == |Texts(orig, p)| - 1));
  }

  /** 8-bit and UCS-2: a part with header, footer, suffix and final UDH fits, unless the limit had
      to be raised to zero, and then no part fits. */
  lemma PartFits(orig: Msg, p: Plan, newId: nat -> Uuid, i: nat)
    requires Splittable(orig, p) && i < |Texts(orig, p)| && Wide(orig.coding)
    requires !(p.catenate && |Texts(orig, p)| == 1)
    ensures var part := Split(orig, p, newId)[i];
            |Value(part.udhdata)| + |Value(part.msgdata)| <= p.maxOctets <==> RawLimit(orig, p) >= 0
  {
    PartWithinLimit(orig, p, newId, i);
    LimitCoversHeader(orig, p);
    FlatUnits(orig.coding, Split(orig, p, newId)[i].msgdata.value);
  }

  /** A message sent whole, or cut off after one part, fits as well. */
  lemma SinglePartFits(orig: Msg, p: Plan, newId: nat -> Uuid)
    requires Splittable(orig, p) && |Texts(orig, p)| == 1 && Wide(orig.coding) && RawLimit(orig, p) >= 0
    ensures var part := Split(orig, p, newId)[0];
            |Value(part.udhdata)| + |Value(part.msgdata)| <= p.maxOctets
  {
    PartWithinLimit(orig, p, newId, 0);
    LimitCoversHeader(orig, p);
    FlatUnits(orig.coding, Split(orig, p, newId)[0].msgdata.value);
  }

  /** Bits that pad the header to a septet boundary (section 9.2.3.24 of 3GPP TS 23.040). */
  function FillBits(udhLen: nat): nat { (7 - udhLen * 8 % 7) % 7 }

  /** Room for the fill bits in a full part of `maxOctets`. */
  predicate FillSafe(maxOctets: nat, udhLen: nat) { udhLen % 7 == 0 || maxOctets % 7 < udhLen % 7 }

  /** A part filled to the computed limit leaves room for the fill bits exactly when `FillSafe`. */
  lemma FillBitsFitIff(maxOctets: nat, udhLen: nat)
    requires udhLen <= maxOctets
    ensures 8 * udhLen + FillBits(udhLen) + 7 * ((maxOctets - udhLen) * 8 / 7) <= 8 * maxOctets
       <==> FillSafe(maxOctets, udhLen)
  {
    var d := maxOctets - udhLen;
    Mod8(d);
    Mod8(udhLen);
    ModDifference(maxOctets, udhLen);
  }

  lemma Mod8(x: nat)
    ensures x * 8 % 7 == x % 7
  {
    assert x * 8 == 7 * (x + x / 7) + x % 7;
  }

  lemma ModDifference(x: nat, y: nat)
    requires y <= x
    ensures (x - y) % 7 == if x % 7 >= y % 7 then x % 7 - y % 7 else x % 7 - y % 7 + 7
  {
    var q := x / 7 - y / 7;
    assert x - y == 7 * q + (x % 7 - y % 7);
  }

  /** How many septets may stand behind a header of `udhLen` octets and its fill bits. */
  lemma SeptetsFitIff(maxOctets: nat, udhLen: nat, septets: nat)
    requires udhLen <= maxOctets
    ensures var room := (maxOctets - udhLen) * 8 / 7;
            && (8 * udhLen + 7 * septets <= 8 * maxOctets <==> septets <= room)
            && (8 * udhLen + FillBits(udhLen) + 7 * septets <= 8 * maxOctets
                <==> septets < room || (septets == room && FillSafe(maxOctets, udhLen)))
  {
    FillBitsFitIff(maxOctets, udhLen);
  }

  /** What the escaped characters of a text take up beyond one septet each. */
  function Excess(coding: int, text: Octstr): nat {
    UnitsCoverOctets(coding, text);
    Units(coding, text) - |text|
  }

  lemma {:induction false} ExcessZeroIff(coding: int, text: Octstr)
    ensures Excess(coding, text) == 0 <==> Flat(coding, text)
  {
    if text != [] {
      ExcessZeroIff(coding, text[1..]);
      UnitsCoverOctets(coding, text[1..]);
      assert Flat(coding, text) <==> Weight(coding, text[0]) == 1 && Flat(coding, text[1..]) by {
        if Weight(coding, text[0]) == 1 && Flat(coding, text[1..]) {
          forall n | 0 <= n < |text| ensures Weight(coding, text[n]) == 1 {
            if n > 0 { assert text[1..][n - 1] == text[n]; }
          }
        }
      }
    }
  }

  /** The room for text in a part, as its final header leaves it. */
  function PartRoom(orig: Msg, p: Plan): int
    requires Splittable(orig, p)
  {
    Room(orig.coding, p.maxOctets, PartUdhLen(orig, p), |p.header| + |p.footer|)
  }

  /** The text is too long for one part, but only one is allowed, so that no header is added after all. */
  predicate CutToOne(orig: Msg, p: Plan)
    requires Splittable(orig, p)
  {
    && p.catenate && |Texts(orig, p)| == 1
    && Length(orig.coding, orig.msgdata.value)
       > Room(orig.coding, p.maxOctets, |Value(orig.udhdata)|, |p.header| + |p.footer|)
  }

  lemma PartRoomIsLimit(orig: Msg, p: Plan)
    requires Splittable(orig, p) && RawLimit(orig, p) >= 0
    ensures PartRoom(orig, p) >= Limit(orig, p) && (!CutToOne(orig, p) ==> PartRoom(orig, p) == Limit(orig, p))
  {
  }

  function Suffix(p: Plan, last: bool): Octstr { if last then [] else p.suffix }

  /** The bits a part takes up, header first; the fill bits come on top. */
  function BitsUsed(coding: int, part: SmsMsg): nat {
    8 * |Value(part.udhdata)| + 7 * Units(coding, Value(part.msgdata))
  }

  /** 7-bit, for every text and decoration: a part fits exactly when its text, its suffix and what the
      escaped characters of its decoration take up beyond the octets the limit counts them with fit the room. */
  lemma PartFits7(orig: Msg, p: Plan, newId: nat -> Uuid, i: nat)
    requires Splittable(orig, p) && i < |Texts(orig, p)| && !Wide(orig.coding) && RawLimit(orig, p) >= 0
    ensures var part, last := Split(orig, p, newId)[i], i == |Texts(orig, p)| - 1;
            var u, used := |Value(part.udhdata)|, BitsUsed(orig.coding, part);
            var need := Units(orig.coding, Texts(orig, p)[i]) + |Suffix(p, last)| + Excess(orig.coding, Trim(p, last));
            && 0 <= u <= p.maxOctets
            && (used <= 8 * p.maxOctets <==> need <= PartRoom(orig, p))
            && (used + FillBits(u) <= 8 * p.maxOctets
                <==> need < PartRoom(orig, p) || (need == PartRoom(orig, p) && FillSafe(p.maxOctets, u)))
  {
    PartUnits(orig, p, newId, i);
    PartRoomIsLimit(orig, p);
    SeptetsFitIff(p.maxOctets, PartUdhLen(orig, p), Units(orig.coding, Value(Split(orig, p, newId)[i].msgdata)));
  }

  /** Without escaped characters in the decoration every 7-bit part fits, whatever the text and the split
      characters, and with its fill bits too if there is room for them in a full part. */
  lemma FlatDecorationFits7(orig: Msg, p: Plan, newId: nat -> Uuid, i: nat)
    requires Splittable(orig, p) && i < |Texts(orig, p)| && !Wide(orig.coding) && RawLimit(orig, p) >= 0
    requires Flat(orig.coding, Trim(p, i == |Texts(orig, p)| - 1))
    ensures var part := Split(orig, p, newId)[i];
            var u := |Value(part.udhdata)|;
            && 0 <= u <= p.maxOctets && BitsUsed(orig.coding, part) <= 8 * p.maxOctets
            && (FillSafe(p.maxOctets, u) ==> BitsUsed(orig.coding, part) + FillBits(u) <= 8 * p.maxOctets)
  {
    PartFits7(orig, p, newId, i);
    PartUnits(orig, p, newId, i);
    PartRoomIsLimit(orig, p);
    ExcessZeroIff(orig.coding, Trim(p, i == |Texts(orig, p)| - 1));
  }

  const MAX_SMS_OCTETS := 140

  /** At the length of a real short message header, fill bits and septets of every such part fit. */
  lemma FullMessageFits7(orig: Msg, p: Plan, newId: nat -> Uuid, i: nat)
    requires Splittable(orig, p) && i < |Texts(orig, p)| && !Wide(orig.coding) && RawLimit(orig, p) >= 0
    requires p.maxOctets == MAX_SMS_OCTETS && Flat(orig.coding, Trim(p, i == |Texts(orig, p)| - 1))
    ensures var part := Split(orig, p, newId)[i];
            BitsUsed(orig.coding, part) + FillBits(|Value(part.udhdata)|) <= 8 * MAX_SMS_OCTETS
  {
    FlatDecorationFits7(orig, p, newId, i);
  }

  /** At that length the fill bits never matter, whatever the decoration: with them a part fits exactly
      when it fits without. */
  lemma FillBitsFree(orig: Msg, p: Plan, newId: nat -> Uuid, i: nat)
    requires Splittable(orig, p) && i < |Texts(orig, p)| && !Wide(orig.coding) && RawLimit(orig, p) >= 0
    requires p.maxOctets == MAX_SMS_OCTETS
    ensures var part := Split(orig, p, newId)[i];
            var used := BitsUsed(orig.coding, part);
            (used + FillBits(|Value(part.udhdata)|) <= 8 * MAX_SMS_OCTETS <==> used <= 8 * MAX_SMS_OCTETS)
  {
    PartFits7(orig, p, newId, i);
  }

  /** Every chunk of flat text but the last fills the room of a cut. */
  lemma {:induction false} FlatChunkFull(coding: int, text: Octstr, l: nat, k: nat, msgno: nat, maxMessages: int,
                                         i: nat)
    requires Flat(coding, text) && k <= l && (msgno <= maxMessages || Advances(coding, text, l, k))
    requires i < |Chunks(coding, text, l, k, [], msgno, maxMessages)| - 1
    ensures Units(coding, Chunks(coding, text, l, k, [], msgno, maxMessages)[i]) == k
    decreases i
  {
    FlatCut(coding, text, k);
    FlatUnits(coding, text[..k]);
    AdvancesIff(coding, text, l, k, []);
    if i > 0 { FlatChunkFull(coding, text[k..], l, k, msgno + 1, maxMessages, i - 1); }
  }

  lemma FullPart(orig: Msg, p: Plan, i: nat)
    requires Splittable(orig, p) && Flat(orig.coding, orig.msgdata.value) && p.splitChars == []
    requires i < |Texts(orig, p)| - 1
    ensures Units(orig.coding, Texts(orig, p)[i]) == CutRoom(orig, p)
  {
    FlatChunkFull(orig.coding, orig.msgdata.value, Limit(orig, p), CutRoom(orig, p), 1, p.maxMessages, i);
  }

  /** 7-bit text without escaped or split characters: a part before the last fits exactly when header,
      footer and suffix hold no escaped character, and with its fill bits exactly when a full part also
      has room for those. Both can be told from the arguments. */
  lemma FullPartFits7Iff(orig: Msg, p: Plan, newId: nat -> Uuid, i: nat)
    requires Splittable(orig, p) && !Wide(orig.coding) && RawLimit(orig, p) >= 0
    requires Flat(orig.coding, orig.msgdata.value) && p.splitChars == [] && i < |Texts(orig, p)| - 1
    ensures var part := Split(orig, p, newId)[i];
            var u, used := |Value(part.udhdata)|, BitsUsed(orig.coding, part);
            && 0 <= u <= p.maxOctets && u == PartUdhLen(orig, p)
            && (used <= 8 * p.maxOctets <==> Flat(orig.coding, Trim(p, false)))
            && (used + FillBits(u) <= 8 * p.maxOctets
                <==> Flat(orig.coding, Trim(p, false)) && FillSafe(p.maxOctets, u))
  {
    PartFits7(orig, p, newId, i);
    PartUnits(orig, p, newId, i);
    PartRoomIsLimit(orig, p);
    FullPart(orig, p, i);
    ExcessZeroIff(orig.coding, Trim(p, false));
  }

  predicate AllFit7(coding: int, parts: seq<SmsMsg>, maxOctets: int, fill: bool) {
    forall i :: 0 <= i < |parts| ==>
      BitsUsed(coding, parts[i]) + (if fill then FillBits(|Value(parts[i].udhdata)|) else 0) <= 8 * maxOctets
  }

  lemma FlatPart(coding: int, p: Plan)
    requires Flat(coding, Trim(p, false))
    ensures Flat(coding, Trim(p, true))
  {
    assert Trim(p, false) == Trim(p, true) + p.suffix;
    forall n | 0 <= n < |Trim(p, true)| ensures Weight(coding, Trim(p, true)[n]) == 1 {
      assert Trim(p, false)[n] == Trim(p, true)[n];
    }
  }

  /** The whole message, cut into several parts: all of them fit exactly when the decoration is free of
      escaped characters, and all fit with their fill bits exactly when there is room for those as well. */
  lemma AllFit7Iff(orig: Msg, p: Plan, newId: nat -> Uuid)
    requires Splittable(orig, p) && !Wide(orig.coding) && RawLimit(orig, p) >= 0
    requires Flat(orig.coding, orig.msgdata.value) && p.splitChars == [] && |Texts(orig, p)| > 1
    ensures var parts := Split(orig, p, newId);
            && PartUdhLen(orig, p) <= p.maxOctets
            && (AllFit7(orig.coding, parts, p.maxOctets, false) <==> Flat(orig.coding, Trim(p, false)))
            && (AllFit7(orig.coding, parts, p.maxOctets, true)
                <==> Flat(orig.coding, Trim(p, false)) && FillSafe(p.maxOctets, PartUdhLen(orig, p)))
  {
    FullPartFits7Iff(orig, p, newId, 0);
    if Flat(orig.coding, Trim(p, false)) {
      FlatPart(orig.coding, p);
      FlatPartsFit(orig, p, newId);
    }
  }

  lemma FlatPartsFit(orig: Msg, p: Plan, newId: nat -> Uuid)
    requires Splittable(orig, p) && !Wide(orig.coding) && RawLimit(orig, p) >= 0
    requires Flat(orig.coding, Trim(p, false)) && Flat(orig.coding, Trim(p, true))
    ensures PartUdhLen(orig, p) <= p.maxOctets && AllFit7(orig.coding, Split(orig, p, newId), p.maxOctets, false)
    ensures FillSafe(p.maxOctets, PartUdhLen(orig, p)) ==>
              AllFit7(orig.coding, Split(orig, p, newId), p.maxOctets, true)
  {
    PartRoomIsLimit(orig, p);
    var parts := Split(orig, p, newId);
    forall i | 0 <= i < |parts|
      ensures BitsUsed(orig.coding, parts[i]) <= 8 * p.maxOctets && |Value(parts[i].udhdata)| == PartUdhLen(orig, p)
      ensures FillSafe(p.maxOctets, PartUdhLen(orig, p)) ==>
                BitsUsed(orig.coding, parts[i]) + FillBits(|Value(parts[i].udhdata)|) <= 8 * p.maxOctets
    {
      FlatDecorationFits7(orig, p, newId, i);
      PartUnits(orig, p, newId, i);
    }
  }

  lemma FirstFlatChunk(coding: int, text: Octstr, l: nat, maxMessages: int)
    requires Flat(coding, text) && 1 <= l < |text| && 2 <= maxMessages
    ensures var chunks := Chunks(coding, text, l, l, [], 1, maxMessages);
            |chunks| > 1 && chunks[0] == text[..l] && Units(coding, chunks[0]) == l
  {
    FlatCut(coding, text, l);
    FlatUnits(coding, text[..l]);
  }

  predicate PlainText7(orig: Msg, length: nat) {
    && orig.Sms? && orig.coding == DC_7BIT && orig.udhdata.None? && orig.msgdata.Some?
    && Flat(DC_7BIT, orig.msgdata.value) && |orig.msgdata.value| == length
  }

  lemma LimitAt146(orig: Msg, sequence: int)
    requires PlainText7(orig, 320)
    ensures Limit(orig, SendPlan(sequence, 146)) == 160
  {
    FlatUnits(DC_7BIT, orig.msgdata.value);
  }

  lemma FirstPartAt146(orig: Msg, sequence: int)
    requires PlainText7(orig, 320)
    ensures var texts := Texts(orig, SendPlan(sequence, 146));
            |texts| > 1 && Units(DC_7BIT, texts[0]) == 160
  {
    LimitAt146(orig, sequence);
    FirstFlatChunk(DC_7BIT, orig.msgdata.value, 160, 255);
  }

  /** At another length there may be none: 7-bit text of 320 characters at 146 octets fills the first part
      to 160 septets, and with its fill bit the part is one bit too long. */
  lemma FillBitOverflows(orig: Msg, sequence: int, newId: nat -> Uuid)
    requires PlainText7(orig, 320)
    ensures var part := Split(orig, SendPlan(sequence, 146), newId)[0];
            var u := |Value(part.udhdata)|;
            8 * u + FillBits(u) + 7 * Units(DC_7BIT, Value(part.msgdata)) == 8 * 146 + 1
  {
    var p := SendPlan(sequence, 146);
    FirstPartAt146(orig, sequence);
    PartUnits(orig, p, newId, 0);
    assert Trim(p, false) == [] && PartUdhLen(orig, p) == 6;
  }

  /** The limit counts an escaped character of a header as one septet: 159 characters behind such a
      header are let through as one part of 161 septets. */
  lemma EscapedHeaderOverflows(orig: Msg, newId: nat -> Uuid)
    requires PlainText7(orig, 159)
    ensures var p := Plan([0x7b], [], [], [], false, 0, 255, MAX_SMS_OCTETS);
            var part := Split(orig, p, newId)[0];
            |Texts(orig, p)| == 1 && 7 * Units(DC_7BIT, Value(part.msgdata)) > 8 * MAX_SMS_OCTETS
  {
    var p, text := Plan([0x7b], [], [], [], false, 0, 255, MAX_SMS_OCTETS), orig.msgdata.value;
    FlatCut(DC_7BIT, text, 159);
    assert Texts(orig, p) == [text[..159]] && text[..159] == text;
    PartUnits(orig, p, newId, 0);
    assert Trim(p, true) == [0x7b] && p.header[1..] == [];
    assert Units(DC_7BIT, Trim(p, true)) == 2;
  }

  /** The loop ends with at least one part and no more than allowed. */
  lemma PartsWithinMax(orig: Msg, p: Plan, newId: nat -> Uuid)
    requires Splittable(orig, p)
    ensures 1 <= |Split(orig, p, newId)| && (p.maxMessages >= 1 ==> |Split(orig, p, newId)| <= p.maxMessages)
  {
  }

  // ----- whole UCS-2 characters

  predicate AllEven(chunks: seq<Octstr>) { forall i :: 0 <= i < |chunks| ==> |chunks[i]| % 2 == 0 }

  lemma AllEvenStep(head: Octstr, rest: seq<Octstr>)
    ensures AllEven([head] + rest) <==> |head| % 2 == 0 && AllEven(rest)
  {
    var all := [head] + rest;
    if AllEven(all) {
      assert |all[0]| % 2 == 0;
      forall i | 0 <= i < |rest| ensures |rest[i]| % 2 == 0 { assert all[i + 1] == rest[i]; }
    }
  }

  lemma UcsCut(text: Octstr, k: nat)
    ensures Length(DC_UCS2, text) == |text| && CutLen(DC_UCS2, text, k, []) == if k < |text| then k else |text|
  {
    FlatCut(DC_UCS2, text, k);
  }

  lemma EvenEnd(text: Octstr, l: nat, k: nat, msgno: nat, maxMessages: int, n: nat)
    requires n == CutLen(DC_UCS2, text, k, []) && (Length(DC_UCS2, text) <= l || msgno == maxMessages)
    requires msgno <= maxMessages || Advances(DC_UCS2, text, l, k)
    ensures AllEven(Chunks(DC_UCS2, text, l, k, [], msgno, maxMessages)) <==> n % 2 == 0
  {
    assert [text[..n]] == [text[..n]] + [];
    AllEvenStep(text[..n], []);
  }

  lemma EvenStep(text: Octstr, l: nat, k: nat, msgno: nat, maxMessages: int, n: nat)
    requires n == CutLen(DC_UCS2, text, k, []) && Length(DC_UCS2, text) > l && msgno != maxMessages
    requires msgno <= maxMessages || Advances(DC_UCS2, text, l, k)
    ensures msgno + 1 <= maxMessages || (n > 0 && Advances(DC_UCS2, text[n..], l, k))
    ensures AllEven(Chunks(DC_UCS2, text, l, k, [], msgno, maxMessages))
       <==> n % 2 == 0 && AllEven(Chunks(DC_UCS2, text[n..], l, k, [], msgno + 1, maxMessages))
  {
    AdvancesIff(DC_UCS2, text, l, k, []);
    AllEvenStep(text[..n], Chunks(DC_UCS2, text[n..], l, k, [], msgno + 1, maxMessages));
  }

  lemma EvenRest(text: Octstr, k: nat, n: nat)
    requires |text| % 2 == 0 && k % 2 == 0 && n == if k < |text| then k else |text|
    ensures n % 2 == 0 && |text[n..]| % 2 == 0
  {
  }

  /** The cuts of UCS-2 text know nothing of its characters: every part holds whole ones exactly when
      the room for text in a part is even, or the text fits one part. */
  lemma {:induction false} WholeCharactersIff(text: Octstr, l: nat, k: nat, msgno: nat, maxMessages: int)
    requires |text| % 2 == 0 && k <= l && (msgno <= maxMessages || Advances(DC_UCS2, text, l, k))
    ensures AllEven(Chunks(DC_UCS2, text, l, k, [], msgno, maxMessages)) <==> k % 2 == 0 || |text| <= k
    decreases Remaining(text, msgno, maxMessages)
  {
    UcsCut(text, k);
    var n := CutLen(DC_UCS2, text, k, []);
    if |text| <= l || msgno == maxMessages {
      EvenEnd(text, l, k, msgno, maxMessages, n);
    } else {
      EvenStep(text, l, k, msgno, maxMessages, n);
      if k % 2 == 0 {
        EvenRest(text, k, n);
        WholeCharactersIff(text[n..], l, k, msgno + 1, maxMessages);
      }
    }
  }

  lemma WholePartsIff(orig: Msg, p: Plan)
    requires Splittable(orig, p) && orig.coding == DC_UCS2 && |orig.msgdata.value| % 2 == 0 && p.splitChars == []
    ensures AllEven(Texts(orig, p)) <==> CutRoom(orig, p) % 2 == 0 || |orig.msgdata.value| <= CutRoom(orig, p)
  {
    WholeCharactersIff(orig.msgdata.value, Limit(orig, p), CutRoom(orig, p), 1, p.maxMessages);
  }

  /** Two characters and room for three octets: the second character is cut in two. */
  lemma CharacterCutInTwo(text: Octstr)
    requires |text| == 4
    ensures !AllEven(Chunks(DC_UCS2, text, 3, 3, [], 1, 255))
  {
    WholeCharactersIff(text, 3, 3, 1, 255);
  }

  // ----- delivery reports and identifiers

  /** A requested report is asked for on the first part only, and the last part alone keeps
      the identifier of the original, whatever fresh identifiers the others got. */
  lemma ReportsAndIds(orig: Msg, p: Plan, newId: nat -> Uuid, i: nat)
    requires Splittable(orig, p) && i < |Texts(orig, p)|
    requires forall n :: newId(n) != orig.id
    ensures var parts := Split(orig, p, newId);
            && (DlrFlags.Enabled(parts[i].dlrMask) <==> i == 0 && DlrFlags.Enabled(orig.dlrMask))
            && (parts[i].id == orig.id <==> i == |parts| - 1)
            && parts[i].sender == orig.sender && parts[i].receiver == orig.receiver
            && parts[i].coding == orig.coding
  {
    forall k: nat ensures !DlrFlags.Bit(0, k) { DlrFlags.NoBits(k); }
  }
}
