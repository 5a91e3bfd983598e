/** The wire and file form of messages (gw/msg.c): a type number and the fields in
    declaration order, integers in four octets, strings with a length in front. */
module MsgPack {
  import opened Octets
  import opened Messages

  const TWO32 := 0x1_0000_0000
  const TWO31 := 0x8000_0000

  // ----- integers

  /** encode_network_long: the low 32 bits, most significant octet first. */
  function Encode(v: int): (os: Octstr)
    ensures |os| == 4
  {
    var u := v % TWO32;
    [u / 0x100_0000, u / 0x1_0000 % 256, u / 0x100 % 256, u % 256]
  }

  /** decode_network_long: a signed 32-bit value. */
  function Decode(os: Octstr): int
    requires |os| == 4
  {
    var a: int, b: int, c: int := os[0], os[1], os[2];
    var u := a * 0x100_0000 + b * 0x1_0000 + c * 0x100 + os[3];
    if u >= TWO31 then u - TWO32 else u
  }

  predicate Int32(v: int) { -TWO31 <= v < TWO31 }

  lemma DecodeInvertsEncode(v: int)
    ensures Decode(Encode(v)) == v <==> Int32(v)
  {
    var u := v % TWO32;
    assert u == u / 0x1_0000 * 0x1_0000 + u / 0x100 % 256 * 0x100 + u % 256;
    assert u / 0x1_0000 == u / 0x100_0000 * 256 + u / 0x1_0000 % 256;
  }

  // ----- identifiers

  /** Dashes stand before these positions. */
  function Dashes(i: int): nat {
    if i <= 8 then 0 else if i <= 13 then 1 else if i <= 18 then 2 else if i <= 23 then 3 else 4
  }

  predicate IsDash(i: int) { i == 8 || i == 13 || i == 18 || i == 23 }

  function HexDigit(n: nat): Octet
    requires n < 16
  {
    if n < 10 then 0x30 + n else 0x57 + n
  }

  const UUID_STR_LEN := 36

  function TextOctet(u: Uuid, i: nat): Octet
    requires i < UUID_STR_LEN
  {
    var n := i - Dashes(i);
    if IsDash(i) then 0x2d
    else if n % 2 == 0 then HexDigit(u[n / 2] / 16) else HexDigit(u[n / 2] % 16)
  }

  /** uuid_unparse. */
  function UuidText(u: Uuid): (t: Octstr)
    ensures |t| == UUID_STR_LEN
  {
    seq(UUID_STR_LEN, i requires 0 <= i < UUID_STR_LEN => TextOctet(u, i))
  }

  /** Where the two digits of octet `k` start. */
  function DigitPos(k: nat): nat
    requires k < 16
  {
    2 * k + (if k < 4 then 0 else if k < 6 then 1 else if k < 8 then 2 else if k < 10 then 3 else 4)
  }

  predicate IsUuidText(t: Octstr) {
    |t| == UUID_STR_LEN && forall i :: 0 <= i < UUID_STR_LEN ==> if IsDash(i) then t[i] == 0x2d else HexValue(t[i]) >= 0
  }

  function UuidOctet(t: Octstr, k: nat): Octet
    requires IsUuidText(t) && k < 16
  {
    HexValue(t[DigitPos(k)]) * 16 + HexValue(t[DigitPos(k) + 1])
  }

  function UuidOctets(t: Octstr): (u: Uuid)
    requires IsUuidText(t)
    ensures forall k :: 0 <= k < 16 ==> u[k] == UuidOctet(t, k)
  {
    seq(16, k requires 0 <= k < 16 => UuidOctet(t, k))
  }

  /** uuid_parse. */
  function ParseUuidText(t: Octstr): Option<Uuid> {
    var c := CString(t);
    if IsUuidText(c) then Some(UuidOctets(c)) else None
  }

  lemma HexInverts(n: nat)
    requires n < 16
    ensures HexValue(HexDigit(n)) == n && HexDigit(n) != 0
  {
  }

  lemma TextDigits(u: Uuid, k: nat)
    requires k < 16
    ensures UuidText(u)[DigitPos(k)] == HexDigit(u[k] / 16) && UuidText(u)[DigitPos(k) + 1] == HexDigit(u[k] % 16)
  {
    var p := DigitPos(k);
    assert !IsDash(p) && !IsDash(p + 1) && p - Dashes(p) == 2 * k && p + 1 - Dashes(p + 1) == 2 * k + 1;
  }

  lemma TextWellFormed(u: Uuid)
    ensures IsUuidText(UuidText(u)) && 0 !in UuidText(u)
  {
    forall i | 0 <= i < UUID_STR_LEN
      ensures UuidText(u)[i] != 0 && if IsDash(i) then UuidText(u)[i] == 0x2d else HexValue(UuidText(u)[i]) >= 0
    {
      if !IsDash(i) {
        var n := i - Dashes(i);
        HexInverts(u[n / 2] / 16);
        HexInverts(u[n / 2] % 16);
      }
    }
  }

  lemma UuidTextInverts(u: Uuid)
    ensures ParseUuidText(UuidText(u)) == Some(u)
  {
    var t := UuidText(u);
    TextWellFormed(u);
    NoNul(t);
    forall k | 0 <= k < 16 ensures UuidOctet(t, k) == u[k] {
      TextDigits(u, k);
      HexInverts(u[k] / 16);
      HexInverts(u[k] % 16);
    }
    assert UuidOctets(t) == u;
  }

  // ----- fields

  datatype Field = FInt(i: int) | FStr(s: Option<Octstr>) | FUuid(u: Uuid)

  datatype Kind = KInt | KStr | KUuid

  function KindOf(f: Field): Kind { match f case FInt(_) => KInt case FStr(_) => KStr case FUuid(_) => KUuid }

  /** Outcome of a parse step: a value and the new offset, a refused packet, or a failed
      assertion in the string library, which stops the process. */
  datatype Parse<+T> = Ok(value: T, off: nat) | Bad | Abort {

    predicate IsFailure() { !Ok? }

    function PropagateFailure<U>(): Parse<U>
      requires IsFailure()
    {
      if Bad? then Bad else Abort
    }

    function Extract(): (T, nat)
      requires Ok?
    {
      (value, off)
    }
  }

  function AppendString(s: Option<Octstr>): Octstr {
    if s.None? then Encode(-1) else Encode(|s.value|) + s.value
  }

  function PackField(f: Field): Octstr {
    match f
    case FInt(i) => Encode(i)
    case FStr(s) => AppendString(s)
    case FUuid(u) => AppendString(Some(UuidText(u)))
  }

  function ParseInt(os: Octstr, off: nat): Parse<int> {
    if off + 4 > |os| then Bad else Ok(Decode(os[off..off + 4]), off + 4)
  }

  /** A string is clipped at the end of the packet, but the offset moves by its full length. */
  function ParseString(os: Octstr, off: nat): Parse<Option<Octstr>> {
    var (len, o) :- ParseInt(os, off);
    if len == -1 then Ok(None, o) else if len < 0 then Abort else Ok(Some(Copy(os, o, len)), o + len)
  }

  function ParseUuid(os: Octstr, off: nat): Parse<Uuid> {
    var (text, o) :- ParseString(os, off);
    if text.None? then Bad
    else
      var id := ParseUuidText(text.value);
      if id.None? then Bad else Ok(id.value, o)
  }

  function ParseField(kind: Kind, os: Octstr, off: nat): (r: Parse<Field>)
    ensures r.Ok? ==> KindOf(r.value) == kind
  {
    match kind
    case KInt => var (i, o) :- ParseInt(os, off); Ok(FInt(i), o)
    case KStr => var (s, o) :- ParseString(os, off); Ok(FStr(s), o)
    case KUuid => var (u, o) :- ParseUuid(os, off); Ok(FUuid(u), o)
  }

  /** A string whose length the format can hold. */
  predicate StringFits(f: Field) { f.FStr? && f.s.Some? ==> |f.s.value| < TWO31 }

  /** An integer as it comes back: its low 32 bits, signed. */
  function Wrap(v: int): int { Decode(Encode(v)) }

  function WrapField(f: Field): Field { if f.FInt? then FInt(Wrap(f.i)) else f }

  lemma ParseIntAt(v: int, os: Octstr, off: nat)
    requires Holds(os, off, Encode(v))
    ensures ParseInt(os, off) == Ok(Wrap(v), off + 4)
  {
  }

  lemma ParseStringAt(s: Option<Octstr>, os: Octstr, off: nat)
    requires StringFits(FStr(s)) && Holds(os, off, AppendString(s))
    ensures ParseString(os, off) == Ok(s, off + |AppendString(s)|)
  {
    if s.None? {
      ParseIntAt(-1, os, off);
      DecodeInvertsEncode(-1);
    } else {
      HoldsSplit(os, off, Encode(|s.value|), s.value);
      ParseIntAt(|s.value|, os, off);
      DecodeInvertsEncode(|s.value|);
    }
  }

  /** Each parse reads exactly what its append wrote. */
  lemma ParseFieldAt(f: Field, os: Octstr, off: nat)
    requires StringFits(f) && Holds(os, off, PackField(f))
    ensures ParseField(KindOf(f), os, off) == Ok(WrapField(f), off + |PackField(f)|)
  {
    match f
    case FInt(i) => ParseIntAt(i, os, off);
    case FStr(s) => ParseStringAt(s, os, off);
    case FUuid(u) =>
      ParseStringAt(Some(UuidText(u)), os, off);
      UuidTextInverts(u);
  }

  function PackFields(fields: seq<Field>): Octstr {
    if fields == [] then [] else PackField(fields[0]) + PackFields(fields[1..])
  }

  function ParseFields(kinds: seq<Kind>, os: Octstr, off: nat): (r: Parse<seq<Field>>)
    ensures r.Ok? ==> |r.value| == |kinds| && forall i :: 0 <= i < |kinds| ==> KindOf(r.value[i]) == kinds[i]
  {
    if kinds == [] then Ok([], off)
    else
      var (f, o) :- ParseField(kinds[0], os, off);
      var (fs, end) :- ParseFields(kinds[1..], os, o);
      Ok([f] + fs, end)
  }

  function Kinds(fields: seq<Field>): seq<Kind> {
    if fields == [] then [] else [KindOf(fields[0])] + Kinds(fields[1..])
  }

  function WrapFields(fields: seq<Field>): seq<Field> {
    if fields == [] then [] else [WrapField(fields[0])] + WrapFields(fields[1..])
  }

  lemma {:induction false} ParseFieldsAt(fields: seq<Field>, os: Octstr, off: nat, end: nat)
    requires Holds(os, off, PackFields(fields)) && end == off + |PackFields(fields)|
    requires forall f :: f in fields ==> StringFits(f)
    ensures ParseFields(Kinds(fields), os, off) == Ok(WrapFields(fields), end)
  {
    if fields != [] {
      var mid := off + |PackField(fields[0])|;
      HoldsSplit(os, off, PackField(fields[0]), PackFields(fields[1..]));
      ParseFieldsAt(fields[1..], os, mid, end);
      ParseFieldAt(fields[0], os, off);
      assert ParseField(KindOf(fields[0]), os, off) == Ok(WrapField(fields[0]), mid);
    }
  }

  predicate Faithful(f: Field) { f.FInt? ==> Int32(f.i) }

  predicate AllFaithful(fields: seq<Field>) { forall f :: f in fields ==> Faithful(f) }

  lemma {:induction false} WrapFieldsIff(fields: seq<Field>)
    ensures WrapFields(fields) == fields <==> AllFaithful(fields)
  {
    if fields != [] {
      var f, rest := fields[0], fields[1..];
      if f.FInt? { DecodeInvertsEncode(f.i); }
      WrapFieldsIff(rest);
      assert WrapFields(fields)[0] == WrapField(f) && WrapFields(fields)[1..] == WrapFields(rest);
      assert fields == [f] + rest;
      assert AllFaithful(fields) <==> Faithful(f) && AllFaithful(rest);
      assert WrapFields(fields) == fields <==> WrapField(f) == f && WrapFields(rest) == rest;
    }
  }

  // ----- messages

  /** The number that stands for the message kind. */
  function TypeOf(m: Msg): nat {
    if m.Heartbeat? then 0 else if m.Admin? then 1 else if m.Sms? then 2 else if m.Ack? then 3 else 4
  }

  /** The packed fields; `splitParts` is not among them. */
  function FieldsOf(m: Msg): seq<Field> {
    if m.Heartbeat? then [FInt(m.load)]
    else if m.Admin? then [FInt(m.command), FStr(m.boxcId), FInt(m.httpPort)]
    else if m.Ack? then [FInt(m.nack), FInt(m.ackTime), FUuid(m.ackId)]
    else if m.WdpDatagram? then
      [FStr(m.sourceAddress), FInt(m.sourcePort), FStr(m.destinationAddress), FInt(m.destinationPort), FStr(m.userData)]
    else AddressFields(m) + StateFields(m) + ReportFields(m) + RetryFields(m)
  }

  function AddressFields(m: SmsMsg): seq<Field> {
    [FStr(m.sender), FStr(m.receiver), FStr(m.udhdata), FStr(m.msgdata), FInt(m.time), FStr(m.smscId),
     FStr(m.smscNumber), FStr(m.foreignId), FStr(m.service), FStr(m.account), FUuid(m.id)]
  }

  function StateFields(m: SmsMsg): seq<Field> {
    [FInt(m.smsType), FInt(m.mclass), FInt(m.mwi), FInt(m.coding), FInt(m.compress), FInt(m.validity), FInt(m.deferred)]
  }

  function ReportFields(m: SmsMsg): seq<Field> {
    [FInt(m.dlrMask), FStr(m.dlrUrl), FInt(m.pid), FInt(m.altDcs), FInt(m.rpi), FStr(m.charset), FStr(m.boxcId),
     FStr(m.binfo)]
  }

  function RetryFields(m: SmsMsg): seq<Field> {
    [FInt(m.msgLeft), FInt(m.priority), FInt(m.resendTry), FInt(m.resendTime), FStr(m.metaData)]
  }

  const ADDRESS_KINDS: seq<Kind> := [KStr, KStr, KStr, KStr, KInt, KStr, KStr, KStr, KStr, KStr, KUuid]
  const STATE_KINDS: seq<Kind> := [KInt, KInt, KInt, KInt, KInt, KInt, KInt]
  const REPORT_KINDS: seq<Kind> := [KInt, KStr, KInt, KInt, KInt, KStr, KStr, KStr]
  const RETRY_KINDS: seq<Kind> := [KInt, KInt, KInt, KInt, KStr]

  const SMS_SCHEMA: seq<Kind> := ADDRESS_KINDS + STATE_KINDS + REPORT_KINDS + RETRY_KINDS

  function Schema(t: int): Option<seq<Kind>> {
    if t == 0 then Some([KInt])
    else if t == 1 then Some([KInt, KStr, KInt])
    else if t == 2 then Some(SMS_SCHEMA)
    else if t == 3 then Some([KInt, KInt, KUuid])
    else if t == 4 then Some([KStr, KInt, KStr, KInt, KStr])
    else None
  }

  predicate Typed(fields: seq<Field>, kinds: seq<Kind>) {
    |fields| == |kinds| && forall i :: 0 <= i < |kinds| ==> KindOf(fields[i]) == kinds[i]
  }

  /** Filling a fresh message of the given kind with parsed fields. */
  function Build(t: int, fs: seq<Field>): Msg
    requires Schema(t).Some? && Typed(fs, Schema(t).value)
  {
    if t == 0 then Heartbeat(fs[0].i)
    else if t == 1 then Admin(fs[0].i, fs[1].s, fs[2].i)
    else if t == 3 then Ack(fs[0].i, fs[1].i, fs[2].u)
    else if t == 4 then WdpDatagram(fs[0].s, fs[1].i, fs[2].s, fs[3].i, fs[4].s)
    else
      TypedPieces(fs);
      BuildSms(fs[..11], fs[11..18], fs[18..26], fs[26..])
  }

  lemma TypedPieces(fs: seq<Field>)
    requires Typed(fs, SMS_SCHEMA)
    ensures Typed(fs[..11], ADDRESS_KINDS) && Typed(fs[11..18], STATE_KINDS)
    ensures Typed(fs[18..26], REPORT_KINDS) && Typed(fs[26..], RETRY_KINDS)
  {
    assert SMS_SCHEMA[..11] == ADDRESS_KINDS && SMS_SCHEMA[11..18] == STATE_KINDS;
    assert SMS_SCHEMA[18..26] == REPORT_KINDS && SMS_SCHEMA[26..] == RETRY_KINDS;
  }

  /** From the address, state, report and retry fields. */
  function BuildSms(a: seq<Field>, b: seq<Field>, c: seq<Field>, d: seq<Field>): SmsMsg
    requires Typed(a, ADDRESS_KINDS) && Typed(b, STATE_KINDS) && Typed(c, REPORT_KINDS) && Typed(d, RETRY_KINDS)
  {
    Sms(a[0].s, a[1].s, a[2].s, a[3].s, a[4].i, a[5].s, a[6].s, a[7].s, a[8].s, a[9].s, a[10].u,
        b[0].i, b[1].i, b[2].i, b[3].i, b[4].i, b[5].i, b[6].i,
        c[0].i, c[1].s, c[2].i, c[3].i, c[4].i, c[5].s, c[6].s, c[7].s,
        d[0].i, None, d[1].i, d[2].i, d[3].i, d[4].s)
  }

  function Pack(m: Msg): Octstr { Encode(TypeOf(m)) + PackFields(FieldsOf(m)) }

  /** msg_unpack; octets after the last field are ignored. */
  function Unpack(os: Octstr): Parse<Msg> {
    var (t, o) :- ParseInt(os, 0);
    if Schema(t).None? then Bad
    else
      var (fs, end) :- ParseFields(Schema(t).value, os, o);
      Ok(Build(t, fs), end)
  }

  /** What survives packing: everything but the pointer to split bookkeeping. */
  function Clean(m: Msg): Msg { if m.Sms? then m.(splitParts := None) else m }

  predicate StringsFit(m: Msg) { forall f :: f in FieldsOf(m) ==> StringFits(f) }

  predicate IntsFit(m: Msg) { AllFaithful(FieldsOf(m)) }

  lemma KindsOfFields(m: Msg)
    ensures Schema(TypeOf(m)) == Some(Kinds(FieldsOf(m)))
  {
    if m.Sms? {
      KindsConcat(AddressFields(m), StateFields(m));
      KindsConcat(AddressFields(m) + StateFields(m), ReportFields(m));
      KindsConcat(AddressFields(m) + StateFields(m) + ReportFields(m), RetryFields(m));
      KindsAt(AddressFields(m));
      KindsAt(StateFields(m));
      KindsAt(ReportFields(m));
      KindsAt(RetryFields(m));
      assert Kinds(AddressFields(m)) == ADDRESS_KINDS && Kinds(StateFields(m)) == STATE_KINDS;
      assert Kinds(ReportFields(m)) == REPORT_KINDS && Kinds(RetryFields(m)) == RETRY_KINDS;
    } else {
      KindsAt(FieldsOf(m));
      assert Schema(TypeOf(m)).value == Kinds(FieldsOf(m));
    }
  }

  lemma KindsStep(f: Field, rest: seq<Field>)
    ensures Kinds([f] + rest) == [KindOf(f)] + Kinds(rest)
  {
    assert ([f] + rest)[1..] == rest;
  }

  lemma Regroup<T>(x: T, a: seq<T>, b: seq<T>)
    ensures [x] + (a + b) == [x] + a + b
  {
  }

  lemma {:induction false} KindsConcat(a: seq<Field>, b: seq<Field>)
    ensures Kinds(a + b) == Kinds(a) + Kinds(b)
  {
    if a == [] {
      assert a + b == b;
    } else {
      var f, rest := a[0], a[1..];
      assert a == [f] + rest;
      KindsConcat(rest, b);
      KindsStep(f, rest);
      KindsStep(f, rest + b);
      Regroup(f, rest, b);
      Regroup(KindOf(f), Kinds(rest), Kinds(b));
    }
  }

  lemma {:induction false} KindsAt(fields: seq<Field>)
    ensures Typed(fields, Kinds(fields))
  {
    if fields != [] { KindsAt(fields[1..]); }
  }

  lemma BuildInverts(m: Msg)
    ensures Schema(TypeOf(m)).Some? && Typed(FieldsOf(m), Schema(TypeOf(m)).value)
    ensures Build(TypeOf(m), FieldsOf(m)) == Clean(m)
  {
    KindsOfFields(m);
    KindsAt(FieldsOf(m));
    if m.Sms? { SmsPieces(m); }
  }

  lemma SmsPieces(m: Msg)
    requires m.Sms?
    ensures var fs := FieldsOf(m);
            && |fs| >= 26 && fs[..11] == AddressFields(m) && fs[11..18] == StateFields(m)
            && fs[18..26] == ReportFields(m) && fs[26..] == RetryFields(m)
  {
  }

  lemma FieldsOfBuild(t: int, fs: seq<Field>)
    requires Schema(t).Some? && Typed(fs, Schema(t).value)
    ensures FieldsOf(Build(t, fs)) == fs && TypeOf(Build(t, fs)) == t
  {
    if t == 2 { FieldsOfBuildSms(fs); }
  }

  lemma FieldsOfBuildSms(fs: seq<Field>)
    requires Typed(fs, SMS_SCHEMA)
    ensures FieldsOf(Build(2, fs)) == fs
  {
    TypedPieces(fs);
    var a, b, c, d := fs[..11], fs[11..18], fs[18..26], fs[26..];
    BuiltPieces(a, b, c, d);
    assert fs == a + b + c + d;
  }

  lemma BuiltPieces(a: seq<Field>, b: seq<Field>, c: seq<Field>, d: seq<Field>)
    requires Typed(a, ADDRESS_KINDS) && Typed(b, STATE_KINDS) && Typed(c, REPORT_KINDS) && Typed(d, RETRY_KINDS)
    ensures AddressFields(BuildSms(a, b, c, d)) == a && StateFields(BuildSms(a, b, c, d)) == b
    ensures ReportFields(BuildSms(a, b, c, d)) == c && RetryFields(BuildSms(a, b, c, d)) == d
  {
  }

  lemma {:induction false} WrapKeepsKinds(fields: seq<Field>)
    ensures Kinds(WrapFields(fields)) == Kinds(fields)
  {
    if fields != [] {
      WrapKeepsKinds(fields[1..]);
      assert WrapFields(fields)[1..] == WrapFields(fields[1..]);
    }
  }

  /** The message that comes back: integers reduced to 32 bits, everything else as it was. */
  function Returned(m: Msg): Msg {
    KindsOfFields(m);
    WrapKeepsKinds(FieldsOf(m));
    KindsAt(WrapFields(FieldsOf(m)));
    Build(TypeOf(m), WrapFields(FieldsOf(m)))
  }

  /** A packed message is read back, up to its own length, whatever follows it. */
  lemma UnpackReads(m: Msg, tail: Octstr)
    requires StringsFit(m)
    ensures Unpack(Pack(m) + tail) == Ok(Returned(m), |Pack(m)|)
  {
    var os, fields := Pack(m) + tail, FieldsOf(m);
    assert Holds(os, 0, Encode(TypeOf(m)) + PackFields(fields));
    HoldsSplit(os, 0, Encode(TypeOf(m)), PackFields(fields));
    ParseIntAt(TypeOf(m), os, 0);
    DecodeInvertsEncode(TypeOf(m));
    KindsOfFields(m);
    ParseFieldsAt(fields, os, 4, |Pack(m)|);
  }

  /** Unpacking inverts packing exactly for messages whose integers fit 32 bits. */
  lemma UnpackInvertsPack(m: Msg)
    requires StringsFit(m)
    ensures Unpack(Pack(m)) == Ok(Clean(m), |Pack(m)|) <==> IntsFit(m)
  {
    UnpackReads(m, []);
    assert Pack(m) + [] == Pack(m);
    ReturnedIff(m);
  }

  lemma ReturnedIff(m: Msg)
    ensures Returned(m) == Clean(m) <==> IntsFit(m)
  {
    BuildInverts(m);
    WrapFieldsIff(FieldsOf(m));
    WrapKeepsKinds(FieldsOf(m));
    KindsOfFields(m);
    KindsAt(WrapFields(FieldsOf(m)));
    FieldsOfBuild(TypeOf(m), FieldsOf(m));
    FieldsOfBuild(TypeOf(m), WrapFields(FieldsOf(m)));
  }

  // ----- the packing and unpacking loops

  method MsgPack(m: Msg) returns (os: Octstr)
    ensures os == Pack(m)
  {
    var body := AppendFields(FieldsOf(m));
    os := Encode(TypeOf(m)) + body;
  }

  method AppendFields(fields: seq<Field>) returns (os: Octstr)
    ensures os == PackFields(fields)
  {
    os := [];
    assert fields[0..] == fields;
    for i := 0 to |fields|
      invariant os + PackFields(fields[i..]) == PackFields(fields)
    {
      AppendStep(os, fields[i..]);
      os := os + PackField(fields[i]);
      assert fields[i..][1..] == fields[i + 1..];
    }
    assert os + [] == os;
  }

  lemma AppendStep(os: Octstr, todo: seq<Field>)
    requires todo != []
    ensures os + PackFields(todo) == os + PackField(todo[0]) + PackFields(todo[1..])
  {
  }

  method MsgUnpack(os: Octstr) returns (r: Parse<Msg>)
    ensures r == Unpack(os)
  {
    var head := ParseInt(os, 0);
    if !head.Ok? { return head.PropagateFailure(); }
    var schema := Schema(head.value);
    if schema.None? { return Bad; }
    var fields := ReadFields(schema.value, os, head.off);
    if !fields.Ok? { return fields.PropagateFailure(); }
    r := Ok(Build(head.value, fields.value), fields.off);
  }

  method ReadFields(kinds: seq<Kind>, os: Octstr, start: nat) returns (r: Parse<seq<Field>>)
    ensures r == ParseFields(kinds, os, start)
  {
    var off, fields := start, [];
    assert kinds[0..] == kinds;
    PrependNothing(ParseFields(kinds, os, start));
    for i := 0 to |kinds|
      invariant |fields| == i
      invariant ParseFields(kinds, os, start) == Prepend(fields, ParseFields(kinds[i..], os, off))
    {
      var f := ParseField(kinds[i], os, off);
      if !f.Ok? { return f.PropagateFailure(); }
      assert kinds[i..][1..] == kinds[i + 1..];
      PrependStep(fields, f.value, ParseFields(kinds[i + 1..], os, f.off));
      fields, off := fields + [f.value], f.off;
    }
    assert fields + [] == fields;
    r := Ok(fields, off);
  }

  function Prepend(fields: seq<Field>, r: Parse<seq<Field>>): Parse<seq<Field>> {
    if r.Ok? then Ok(fields + r.value, r.off) else r
  }

  lemma PrependNothing(r: Parse<seq<Field>>)
    ensures Prepend([], r) == r
  {
    if r.Ok? { assert [] + r.value == r.value; }
  }

  lemma PrependStep(fields: seq<Field>, f: Field, r: Parse<seq<Field>>)
    ensures Prepend(fields, Prepend([f], r)) == Prepend(fields + [f], r)
  {
    if r.Ok? { assert fields + ([f] + r.value) == fields + [f] + r.value; }
  }
}
