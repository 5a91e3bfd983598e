/** Logs that end in the middle of a frame, as a crash inside write_msg leaves them (gw/bb_store_file.c, gw/msg.c). */
module TornFrames {
  import opened Octets
  import opened Messages
  import opened MsgPack
  import opened StoreFile

  // ----- one field

  /** A field whose last `missing` octets are all text. */
  predicate LosesText(f: Field, missing: nat) { f.FStr? && f.s.Some? && 0 < missing <= |f.s.value| }

  function Shorter(f: Field, missing: nat): Field
    requires LosesText(f, missing)
  {
    FStr(Some(f.s.value[..|f.s.value| - missing]))
  }

  /** Every field begins with an integer, so none can be read behind the end. */
  lemma PastEnd(kind: Kind, os: Octstr, off: nat)
    requires off + 4 > |os|
    ensures ParseField(kind, os, off) == Bad
  {
  }

  lemma TornText(text: Octstr, os: Octstr, off: nat, n: nat)
    requires |text| < TWO31 && 4 <= n < 4 + |text|
    requires Holds(os, off, (Encode(|text|) + text)[..n]) && off + n == |os|
    ensures ParseString(os, off) == Ok(Some(text[..n - 4]), off + 4 + |text|)
  {
    assert (Encode(|text|) + text)[..n] == Encode(|text|) + text[..n - 4];
    HoldsSplit(os, off, Encode(|text|), text[..n - 4]);
    ParseIntAt(|text|, os, off);
    DecodeInvertsEncode(|text|);
    assert Copy(os, off + 4, |text|) == os[off + 4..] == text[..n - 4];
  }

  lemma ShortText(t: Octstr)
    requires |t| < UUID_STR_LEN
    ensures ParseUuidText(t).None?
  {
  }

  /** A field cut off: only a text survives, shortened, with the offset behind the end. */
  lemma TornField(f: Field, os: Octstr, off: nat, n: nat, missing: nat)
    requires StringFits(f) && n + missing == |PackField(f)| && missing > 0
    requires Holds(os, off, PackField(f)[..n]) && off + n == |os|
    ensures ParseField(KindOf(f), os, off)
         == if LosesText(f, missing) then Ok(Shorter(f, missing), off + |PackField(f)|) else Bad
  {
    if n < 4 {
      PastEnd(KindOf(f), os, off);
    } else {
      var text := if f.FStr? then f.s.value else UuidText(f.u);
      TornText(text, os, off, n);
      if f.FUuid? { ShortText(text[..n - 4]); }
    }
  }

  // ----- several fields

  predicate InLastText(fields: seq<Field>, missing: nat) { fields != [] && LosesText(fields[|fields| - 1], missing) }

  function Clip(fields: seq<Field>, missing: nat): (r: seq<Field>)
    requires InLastText(fields, missing)
    ensures |r| == |fields|
  {
    fields[|fields| - 1 := Shorter(fields[|fields| - 1], missing)]
  }

  /** What a parse makes of fields whose last octets are missing; `end` is where they would have ended. */
  function TornResult(fields: seq<Field>, end: nat, missing: nat): Parse<seq<Field>> {
    if InLastText(fields, missing) then Ok(WrapFields(Clip(fields, missing)), end) else Bad
  }

  predicate AllStringsFit(fields: seq<Field>) { forall f :: f in fields ==> StringFits(f) }

  lemma ParseFirst(kinds: seq<Kind>, os: Octstr, off: nat, f: Field, o: nat)
    requires kinds != [] && ParseField(kinds[0], os, off) == Ok(f, o)
    ensures ParseFields(kinds, os, off) == Prepend([f], ParseFields(kinds[1..], os, o))
  {
  }

  lemma ParseNone(kinds: seq<Kind>, os: Octstr, off: nat)
    requires kinds != [] && ParseField(kinds[0], os, off) == Bad
    ensures ParseFields(kinds, os, off) == Bad
  {
  }

  lemma KindsFirst(f: Field, rest: seq<Field>)
    ensures Kinds([f] + rest) == [KindOf(f)] + Kinds(rest)
    ensures Kinds([f] + rest)[0] == KindOf(f) && Kinds([f] + rest)[1..] == Kinds(rest)
  {
    assert ([f] + rest)[1..] == rest;
  }

  lemma WrapOne(f: Field)
    ensures WrapFields([f]) == [WrapField(f)]
  {
  }

  /** The last field is cut. */
  lemma CutInLast(f: Field, os: Octstr, off: nat, n: nat, missing: nat)
    requires StringFits(f) && n + missing == |PackField(f)| && missing > 0
    requires Holds(os, off, PackField(f)[..n]) && off + n == |os|
    ensures ParseFields([KindOf(f)], os, off) == TornResult([f], off + |PackField(f)|, missing)
  {
    TornField(f, os, off, n, missing);
    if LosesText(f, missing) {
      ParseFirst([KindOf(f)], os, off, Shorter(f, missing), off + |PackField(f)|);
      assert Clip([f], missing) == [Shorter(f, missing)];
      WrapOne(Shorter(f, missing));
    } else {
      ParseNone([KindOf(f)], os, off);
    }
  }

  /** Another field is cut: the next one is behind the end. */
  lemma CutBeforeLast(f: Field, next: Field, after: seq<Field>, os: Octstr, off: nat, n: nat)
    requires StringFits(f) && n < |PackField(f)| && Holds(os, off, PackField(f)[..n]) && off + n == |os|
    ensures ParseFields(Kinds([f] + ([next] + after)), os, off) == Bad
  {
    var missing := |PackField(f)| - n;
    var kinds := Kinds([f] + ([next] + after));
    KindsFirst(f, [next] + after);
    KindsFirst(next, after);
    TornField(f, os, off, n, missing);
    if LosesText(f, missing) {
      PastEnd(KindOf(next), os, off + |PackField(f)|);
      ParseFirst(kinds, os, off, Shorter(f, missing), off + |PackField(f)|);
      ParseNone(kinds[1..], os, off + |PackField(f)|);
    } else {
      ParseNone(kinds, os, off);
    }
  }

  // ----- whole fields in front

  lemma ReadOne(f: Field, rest: seq<Field>, os: Octstr, off: nat, o: nat)
    requires StringFits(f) && Holds(os, off, PackField(f)) && o == off + |PackField(f)|
    ensures ParseFields(Kinds([f] + rest), os, off) == Prepend([WrapField(f)], ParseFields(Kinds(rest), os, o))
  {
    ParseFieldAt(f, os, off);
    KindsFirst(f, rest);
    ParseFirst(Kinds([f] + rest), os, off, WrapField(f), o);
  }

  lemma PrependTwice(f: Field, fields: seq<Field>, r: Parse<seq<Field>>)
    ensures Prepend([f], Prepend(fields, r)) == Prepend([f] + fields, r)
  {
    if r.Ok? { assert [f] + (fields + r.value) == [f] + fields + r.value; }
  }

  lemma PackFirst(f: Field, rest: seq<Field>)
    ensures PackFields([f] + rest) == PackField(f) + PackFields(rest)
    ensures WrapFields([f] + rest) == [WrapField(f)] + WrapFields(rest)
  {
    assert ([f] + rest)[1..] == rest;
  }

  /** Whole fields are read, and the rest is up to the rest. */
  lemma {:induction false} ReadWhole(before: seq<Field>, rest: seq<Field>, os: Octstr, off: nat, end: nat)
    requires AllStringsFit(before) && Holds(os, off, PackFields(before)) && end == off + |PackFields(before)|
    ensures ParseFields(Kinds(before + rest), os, off) == Prepend(WrapFields(before), ParseFields(Kinds(rest), os, end))
    decreases |before|, 0
  {
    if before == [] {
      assert before + rest == rest;
      PrependNothing(ParseFields(Kinds(rest), os, end));
    } else {
      ReadWholeStep(before[0], before[1..], rest, os, off, end);
      assert before == [before[0]] + before[1..];
    }
  }

  lemma {:induction false} ReadWholeStep(f: Field, more: seq<Field>, rest: seq<Field>, os: Octstr, off: nat, end: nat)
    requires StringFits(f) && AllStringsFit(more)
    requires Holds(os, off, PackFields([f] + more)) && end == off + |PackFields([f] + more)|
    ensures ParseFields(Kinds([f] + more + rest), os, off)
         == Prepend(WrapFields([f] + more), ParseFields(Kinds(rest), os, end))
    decreases |more|, 1
  {
    var o := off + |PackField(f)|;
    PackFirst(f, more);
    Regroup(f, more, rest);
    HoldsSplit(os, off, PackField(f), PackFields(more));
    PrependTwice(WrapField(f), WrapFields(more), ParseFields(Kinds(rest), os, end));
    ReadOne(f, more + rest, os, off, o);
    ReadWhole(more, rest, os, o, end);
  }

  lemma Associate(a: Octstr, b: Octstr, c: Octstr)
    ensures a + (b + c) == a + b + c
  {
  }

  lemma {:induction false} PackConcat(a: seq<Field>, b: seq<Field>)
    ensures PackFields(a + b) == PackFields(a) + PackFields(b)
  {
    if a == [] {
      assert a + b == b;
    } else {
      var f, more := a[0], a[1..];
      assert a == [f] + more;
      PackConcat(more, b);
      PackFirst(f, more);
      PackFirst(f, more + b);
      Regroup(f, more, b);
      Associate(PackField(f), PackFields(more), PackFields(b));
    }
  }

  lemma {:induction false} WrapConcat(a: seq<Field>, b: seq<Field>)
    ensures WrapFields(a + b) == WrapFields(a) + WrapFields(b)
  {
    if a == [] {
      assert a + b == b;
    } else {
      var f, more := a[0], a[1..];
      assert a == [f] + more;
      WrapConcat(more, b);
      PackFirst(f, more);
      PackFirst(f, more + b);
      Regroup(f, more, b);
      Regroup(WrapField(f), WrapFields(more), WrapFields(b));
    }
  }

  /** Whole fields in front do not change what the cut does. */
  lemma ClipBehind(before: seq<Field>, f: Field, end: nat, missing: nat)
    ensures TornResult(before + [f], end, missing) == Prepend(WrapFields(before), TornResult([f], end, missing))
  {
    if LosesText(f, missing) {
      var g := Shorter(f, missing);
      assert Clip(before + [f], missing) == before + [g] && Clip([f], missing) == [g];
      WrapConcat(before, [g]);
    }
  }

  // ----- any cut

  lemma PackLast(front: seq<Field>, f: Field)
    ensures PackFields(front + [f]) == PackFields(front) + PackField(f)
  {
    PackConcat(front, [f]);
    PackFirst(f, []);
    assert [f] + [] == [f] && PackField(f) + [] == PackField(f);
  }

  /** The field in which a cut falls. */
  lemma {:induction false} CutField(fields: seq<Field>, n: nat) returns (j: nat)
    requires n < |PackFields(fields)|
    ensures j < |fields| && |PackFields(fields[..j])| <= n < |PackFields(fields[..j])| + |PackField(fields[j])|
    decreases |fields|
  {
    var last := |fields| - 1;
    PackedFront(fields);
    if n < |PackFields(fields[..last])| {
      j := CutField(fields[..last], n);
      FrontOfFront(fields, last, j);
    } else {
      j := last;
    }
  }

  lemma PackedFront(fields: seq<Field>)
    requires fields != []
    ensures PackFields(fields) == PackFields(fields[..|fields| - 1]) + PackField(fields[|fields| - 1])
  {
    assert fields == fields[..|fields| - 1] + [fields[|fields| - 1]];
    PackLast(fields[..|fields| - 1], fields[|fields| - 1]);
  }

  lemma FrontOfFront(fields: seq<Field>, n: nat, j: nat)
    requires j < n <= |fields|
    ensures fields[..n][..j] == fields[..j] && fields[..n][j] == fields[j]
  {
  }

  lemma CutText(before: seq<Field>, f: Field, after: seq<Field>, n: nat)
    requires n < |PackField(f)|
    ensures var a, all := |PackFields(before)|, PackFields(before + ([f] + after));
            && |all| == a + |PackField(f)| + |PackFields(after)|
            && all[..a + n] == PackFields(before) + PackField(f)[..n]
  {
    PackConcat(before, [f] + after);
    PackFirst(f, after);
  }

  /** The cut is in the last field. */
  lemma TornAtLast(before: seq<Field>, f: Field, os: Octstr, off: nat, mid: nat, n: nat, missing: nat)
    requires AllStringsFit(before) && StringFits(f) && n + missing == |PackField(f)| && missing > 0
    requires Holds(os, off, PackFields(before)) && mid == off + |PackFields(before)|
    requires Holds(os, mid, PackField(f)[..n]) && mid + n == |os|
    ensures ParseFields(Kinds(before + [f]), os, off) == TornResult(before + [f], mid + |PackField(f)|, missing)
  {
    ClipBehind(before, f, mid + |PackField(f)|, missing);
    KindsFirst(f, []);
    assert [f] + [] == [f];
    CutInLast(f, os, mid, n, missing);
    ReadWhole(before, [f], os, off, mid);
  }

  /** The cut is in a field before the last. */
  lemma TornEarlier(before: seq<Field>, f: Field, next: Field, after: seq<Field>, os: Octstr, off: nat, mid: nat,
                    n: nat)
    requires AllStringsFit(before) && StringFits(f) && n < |PackField(f)|
    requires Holds(os, off, PackFields(before)) && mid == off + |PackFields(before)|
    requires Holds(os, mid, PackField(f)[..n]) && mid + n == |os|
    ensures ParseFields(Kinds(before + ([f] + ([next] + after))), os, off) == Bad
  {
    CutBeforeLast(f, next, after, os, mid, n);
    ReadWhole(before, [f] + ([next] + after), os, off, mid);
  }

  lemma LastPacked(fields: seq<Field>)
    requires fields != []
    ensures |PackFields(fields)| >= |PackField(fields[|fields| - 1])|
  {
    PackedFront(fields);
  }

  /** More is missing than the field is long. */
  lemma TooMuchMissing(f: Field, missing: nat)
    requires missing > |PackField(f)|
    ensures !LosesText(f, missing)
  {
  }

  /** The cut falls into field `j`, behind `a` octets of whole fields. */
  predicate CutAt(fields: seq<Field>, n: nat, j: nat, a: nat) {
    j < |fields| && a == |PackFields(fields[..j])| && a <= n < a + |PackField(fields[j])|
  }

  lemma CutAtField(fields: seq<Field>, n: nat, j: nat, a: nat)
    requires CutAt(fields, n, j, a)
    ensures |PackFields(fields)| == a + |PackField(fields[j])| + |PackFields(fields[j + 1..])|
    ensures PackFields(fields)[..n] == PackFields(fields[..j]) + PackField(fields[j])[..n - a]
  {
    var before, f, after := fields[..j], fields[j], fields[j + 1..];
    assert fields == before + ([f] + after);
    CutText(before, f, after, n - a);
  }

  lemma HeldAt(fields: seq<Field>, os: Octstr, off: nat, n: nat, j: nat, a: nat)
    requires CutAt(fields, n, j, a) && n <= |PackFields(fields)| && Holds(os, off, PackFields(fields)[..n])
    ensures Holds(os, off, PackFields(fields[..j])) && Holds(os, off + a, PackField(fields[j])[..n - a])
  {
    CutAtField(fields, n, j, a);
    HoldsParts(os, off, PackFields(fields)[..n], PackFields(fields[..j]), PackField(fields[j])[..n - a], off + a);
  }

  lemma TornLastField(fields: seq<Field>, os: Octstr, off: nat, n: nat, end: nat, missing: nat, a: nat)
    requires fields != [] && CutAt(fields, n, |fields| - 1, a) && AllStringsFit(fields)
    requires n + missing == |PackFields(fields)| && end == off + |PackFields(fields)|
    requires Holds(os, off, PackFields(fields)[..n]) && off + n == |os|
    ensures ParseFields(Kinds(fields), os, off) == TornResult(fields, end, missing)
  {
    var j := |fields| - 1;
    HeldAt(fields, os, off, n, j, a);
    CutAtField(fields, n, j, a);
    assert fields[j + 1..] == [];
    assert fields == fields[..j] + [fields[j]];
    TornAtLast(fields[..j], fields[j], os, off, off + a, n - a, missing);
  }

  lemma LastOf(fields: seq<Field>, j: nat)
    requires j < |fields|
    ensures fields[j..] != [] && fields[j..][|fields[j..]| - 1] == fields[|fields| - 1]
  {
  }

  lemma NotInLastText(fields: seq<Field>, n: nat, missing: nat, j: nat, a: nat)
    requires j < |fields| - 1 && CutAt(fields, n, j, a) && n + missing == |PackFields(fields)|
    ensures !InLastText(fields, missing)
  {
    MissingMore(fields, n, missing, j, a);
    TooMuchMissing(fields[|fields| - 1], missing);
  }

  lemma MissingMore(fields: seq<Field>, n: nat, missing: nat, j: nat, a: nat)
    requires j < |fields| - 1 && CutAt(fields, n, j, a) && n + missing == |PackFields(fields)|
    ensures missing > |PackField(fields[|fields| - 1])|
  {
    LengthAt(fields, j);
    LastLonger(fields, j + 1);
  }

  lemma LengthAt(fields: seq<Field>, j: nat)
    requires j < |fields|
    ensures |PackFields(fields)| == |PackFields(fields[..j])| + |PackField(fields[j])| + |PackFields(fields[j + 1..])|
  {
    var a := |PackFields(fields[..j])|;
    assert |PackField(fields[j])| > 0;
    CutAtField(fields, a, j, a);
  }

  lemma LastLonger(fields: seq<Field>, j: nat)
    requires j < |fields|
    ensures |PackFields(fields[j..])| >= |PackField(fields[|fields| - 1])|
  {
    LastOf(fields, j);
    LastPacked(fields[j..]);
  }

  lemma Around(fields: seq<Field>, j: nat)
    requires j + 1 < |fields|
    ensures fields == fields[..j] + ([fields[j]] + ([fields[j + 1]] + fields[j + 2..]))
  {
  }

  lemma TornEarlierField(fields: seq<Field>, os: Octstr, off: nat, n: nat, j: nat, a: nat)
    requires j < |fields| - 1 && CutAt(fields, n, j, a) && AllStringsFit(fields) && n <= |PackFields(fields)|
    requires Holds(os, off, PackFields(fields)[..n]) && off + n == |os|
    ensures ParseFields(Kinds(fields), os, off) == Bad
  {
    HeldAt(fields, os, off, n, j, a);
    var before, f, next, after := fields[..j], fields[j], fields[j + 1], fields[j + 2..];
    Around(fields, j);
    TornEarlier(before, f, next, after, os, off, off + a, n - a);
  }

  /** Fields cut off anywhere are refused, except inside the text of the last one. */
  lemma TornFields(fields: seq<Field>, os: Octstr, off: nat, n: nat, end: nat, missing: nat)
    requires AllStringsFit(fields) && n + missing == |PackFields(fields)| && missing > 0
    requires Holds(os, off, PackFields(fields)[..n]) && off + n == |os| && end == off + |PackFields(fields)|
    ensures ParseFields(Kinds(fields), os, off) == TornResult(fields, end, missing)
  {
    var j := CutField(fields, n);
    var a := |PackFields(fields[..j])|;
    if j == |fields| - 1 {
      TornLastField(fields, os, off, n, end, missing, a);
    } else {
      NotInLastText(fields, n, missing, j, a);
      TornEarlierField(fields, os, off, n, j, a);
    }
  }

  // ----- messages

  /** The missing octets are all meta-data, the last field of a text message. */
  predicate InMetaData(m: Msg, missing: nat) { m.Sms? && m.metaData.Some? && 0 < missing <= |m.metaData.value| }

  function WithShorterMetaData(m: Msg, missing: nat): Msg
    requires InMetaData(m, missing)
  {
    m.(metaData := Some(m.metaData.value[..|m.metaData.value| - missing]))
  }

  lemma LastField(m: Msg)
    requires m.Sms? || m.Ack?
    ensures var fs := FieldsOf(m);
            && |fs| >= 3 && fs[|fs| - 1] == (if m.Sms? then FStr(m.metaData) else FUuid(m.ackId))
  {
  }

  lemma MetaDataLast(m: Msg, missing: nat)
    requires m.Sms? || m.Ack?
    ensures InLastText(FieldsOf(m), missing) <==> InMetaData(m, missing)
  {
    LastField(m);
  }

  lemma ShorterFields(m: Msg, missing: nat)
    requires InMetaData(m, missing)
    ensures InLastText(FieldsOf(m), missing) && FieldsOf(WithShorterMetaData(m, missing)) == Clip(FieldsOf(m), missing)
    ensures TypeOf(WithShorterMetaData(m, missing)) == TypeOf(m)
  {
    LastField(m);
    var fs := FieldsOf(m);
    assert fs == AddressFields(m) + StateFields(m) + ReportFields(m) + RetryFields(m);
  }

  lemma ShorterFits(m: Msg, missing: nat)
    requires InMetaData(m, missing) && StringsFit(m) && IntsFit(m)
    ensures StringsFit(WithShorterMetaData(m, missing)) && IntsFit(WithShorterMetaData(m, missing))
  {
    ShorterFields(m, missing);
    var fs, gs := FieldsOf(m), FieldsOf(WithShorterMetaData(m, missing));
    forall f | f in gs ensures StringFits(f) && Faithful(f) {
      var i :| 0 <= i < |gs| && gs[i] == f;
      assert fs[i] in fs;
    }
  }

  lemma ShorterPack(m: Msg, missing: nat)
    requires InMetaData(m, missing)
    ensures |Pack(WithShorterMetaData(m, missing))| <= |Pack(m)|
  {
    ShorterFields(m, missing);
    LastField(m);
    var fs, gs := FieldsOf(m), FieldsOf(WithShorterMetaData(m, missing));
    assert fs[..|fs| - 1] == gs[..|gs| - 1];
    PackedFront(fs);
    PackedFront(gs);
  }

  lemma ShorterReturned(m: Msg, missing: nat)
    requires InMetaData(m, missing) && StringsFit(m) && IntsFit(m)
    ensures Returned(WithShorterMetaData(m, missing)) == Clean(WithShorterMetaData(m, missing))
  {
    ShorterFits(m, missing);
    ReturnedIff(WithShorterMetaData(m, missing));
  }

  /** Unpacking a packet that was cut off: refused, except inside the meta-data, which then come back shorter. */
  lemma TornUnpack(m: Msg, n: nat, missing: nat)
    requires (m.Sms? || m.Ack?) && StringsFit(m) && IntsFit(m) && n + missing == |Pack(m)| && missing > 0
    ensures Unpack(Pack(m)[..n])
         == if InMetaData(m, missing) then Ok(Clean(WithShorterMetaData(m, missing)), |Pack(m)|) else Bad
  {
    if n < 4 {
      MetaDataInBody(m);
    } else {
      TornBody(m, n, missing);
      if InMetaData(m, missing) {
        ShorterFields(m, missing);
        ShorterReturned(m, missing);
      }
    }
  }

  lemma MetaDataInBody(m: Msg)
    requires m.Sms? || m.Ack?
    ensures m.Sms? && m.metaData.Some? ==> |Pack(m)| >= 4 + |m.metaData.value|
  {
    LastField(m);
    var fs := FieldsOf(m);
    assert fs == fs[..|fs| - 1] + [fs[|fs| - 1]];
    PackLast(fs[..|fs| - 1], fs[|fs| - 1]);
  }

  lemma TornBody(m: Msg, n: nat, missing: nat)
    requires (m.Sms? || m.Ack?) && StringsFit(m) && 4 <= n && n + missing == |Pack(m)| && missing > 0
    ensures var os := Pack(m)[..n];
            && ParseInt(os, 0) == Ok(TypeOf(m), 4) && Schema(TypeOf(m)) == Some(Kinds(FieldsOf(m)))
            && ParseFields(Kinds(FieldsOf(m)), os, 4) == TornResult(FieldsOf(m), |Pack(m)|, missing)
            && (InLastText(FieldsOf(m), missing) <==> InMetaData(m, missing))
  {
    var os, fs := Pack(m)[..n], FieldsOf(m);
    assert os == Encode(TypeOf(m)) + PackFields(fs)[..n - 4];
    HoldsSplit(os, 0, Encode(TypeOf(m)), PackFields(fs)[..n - 4]);
    ParseIntAt(TypeOf(m), os, 0);
    DecodeInvertsEncode(TypeOf(m));
    KindsOfFields(m);
    MetaDataLast(m, missing);
    TornFields(fs, os, 4, n - 4, |Pack(m)|, missing);
  }

  // ----- frames and logs

  /** What a frame without its last octets does to the dictionary. */
  function ApplyTorn(d: Dict, m: Msg, missing: nat): Dict {
    if InMetaData(m, missing) then d[m.id := Clean(WithShorterMetaData(m, missing))] else d
  }

  lemma HeldPack(m: Msg, os: Octstr, pos: nat, n: nat)
    requires 4 <= n < |Frame(m)| && Holds(os, pos, Frame(m)[..n]) && pos + n == |os|
    ensures os[pos..pos + 4] == Encode(|Pack(m)|) && Copy(os, pos + 4, |Pack(m)|) == Pack(m)[..n - 4]
  {
    var pack := Pack(m);
    assert Frame(m)[..n] == Encode(|pack|) + pack[..n - 4];
    HoldsSplit(os, pos, Encode(|pack|), pack[..n - 4]);
  }

  lemma TornRead(m: Msg, os: Octstr, pos: nat, n: nat, missing: nat)
    requires Storable(m) && (m.Sms? || m.Ack?) && 4 <= n && n + missing == |Frame(m)| && missing > 0
    requires Holds(os, pos, Frame(m)[..n]) && pos + n == |os|
    ensures ReadMsg(os, pos) == if InMetaData(m, missing) then Got(Clean(WithShorterMetaData(m, missing)), |os|)
                                else Skipped(|os|)
  {
    HeldPack(m, os, pos, n);
    DecodeInvertsEncode(|Pack(m)|);
    TornUnpack(m, n - 4, missing);
  }

  lemma TornEnd(m: Msg, os: Octstr, pos: nat, n: nat, missing: nat, d: Dict, ids: nat -> Uuid, now: int)
    requires Storable(m) && (m.Sms? || m.Ack?) && n + missing == |Frame(m)| && missing > 0
    requires Holds(os, pos, Frame(m)[..n]) && pos + n == |os| && (n == 0 || n >= 4)
    ensures Replay(os, pos, d, ids, now) == Done(if n == 0 then d else ApplyTorn(d, m, missing))
  {
    if n >= 4 { TornRead(m, os, pos, n, missing); }
  }

  /** A log that ends `n` octets into a frame: the load hangs on one to three octets; else it gives what
      the whole frames hold, and the cut message only if the cut is inside its meta-data, with those shortened. */
  lemma TornLog(msgs: seq<Msg>, m: Msg, n: nat, ids: nat -> Uuid, now: int)
    requires AllStorable(msgs) && Storable(m) && (m.Sms? || m.Ack?) && n < |Frame(m)|
    ensures Replay(Log(msgs) + Frame(m)[..n], 0, map[], ids, now)
         == if 0 < n < 4 then Hangs
            else Done(if n == 0 then ApplyAll(map[], msgs) else ApplyTorn(ApplyAll(map[], msgs), m, |Frame(m)| - n))
  {
    if 0 < n < 4 {
      StrayOctetsHang(msgs, Frame(m)[..n], ids, now);
    } else {
      TornBehindLog(msgs, m, Log(msgs) + Frame(m)[..n], |Log(msgs)|, n, ids, now);
    }
  }

  lemma TwoHalves(os: Octstr, a: Octstr, b: Octstr)
    requires os == a + b
    ensures Holds(os, 0, a) && Holds(os, |a|, b)
  {
    assert Holds(os, 0, a + b);
    HoldsSplit(os, 0, a, b);
  }

  lemma TornBehindLog(msgs: seq<Msg>, m: Msg, os: Octstr, end: nat, n: nat, ids: nat -> Uuid, now: int)
    requires AllStorable(msgs) && Storable(m) && (m.Sms? || m.Ack?) && n < |Frame(m)| && (n == 0 || n >= 4)
    requires os == Log(msgs) + Frame(m)[..n] && end == |Log(msgs)|
    ensures Replay(os, 0, map[], ids, now)
         == Done(if n == 0 then ApplyAll(map[], msgs) else ApplyTorn(ApplyAll(map[], msgs), m, |Frame(m)| - n))
  {
    TwoHalves(os, Log(msgs), Frame(m)[..n]);
    TornEnd(m, os, end, n, |Frame(m)| - n, ApplyAll(map[], msgs), ids, now);
    ReplayLog(msgs, os, 0, end, map[], ids, now);
  }

  lemma {:induction false} CutJoin(parts: seq<Octstr>, c: nat) returns (j: nat, n: nat)
    requires c < |Join(parts)|
    ensures j < |parts| && n < |parts[j]| && Join(parts)[..c] == Join(parts[..j]) + parts[j][..n]
    decreases |parts|
  {
    var last := |parts| - 1;
    var front := parts[..last];
    assert parts == front + [parts[last]];
    JoinAppend(front, parts[last]);
    if c < |Join(front)| {
      j, n := CutJoin(front, c);
      assert front[..j] == parts[..j];
    } else {
      j, n := last, c - |Join(front)|;
    }
  }

  /** Every cut of a log is of that kind. */
  lemma EveryCut(msgs: seq<Msg>, c: nat) returns (j: nat, n: nat)
    requires c < |Log(msgs)|
    ensures j < |msgs| && n < |Frame(msgs[j])| && Log(msgs)[..c] == Log(msgs[..j]) + Frame(msgs[j])[..n]
  {
    j, n := CutJoin(Frames(msgs), c);
    assert Frames(msgs[..j]) == Frames(msgs)[..j];
  }
}
