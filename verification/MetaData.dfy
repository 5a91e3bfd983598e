/** Message meta-data (gw/meta_data.c): a list of named groups of key/value pairs, printed as
    `?group?key=value&key=value&?group?...` with percent-encoded names, and the character
    machine that reads it back. */
module MetaData {
  import opened Octets
  import UrlCode

  datatype Group = Group(name: Octstr, values: map<Octstr, Octstr>)

  const QUESTION: Octet := 0x3f
  const EQUALS: Octet := 0x3d
  const AMPERSAND: Octet := 0x26

  // ----- printing

  function PackPair(key: Octstr, value: Octstr): Octstr {
    UrlCode.Encode(key) + [EQUALS] + (UrlCode.Encode(value) + [AMPERSAND])
  }

  /** The pairs in the order in which the hash table lists its keys. */
  function PackPairs(values: map<Octstr, Octstr>, order: seq<Octstr>): Octstr
    requires forall k :: k in order ==> k in values
  {
    if order == [] then [] else PackPair(order[0], values[order[0]]) + PackPairs(values, order[1..])
  }

  function PackName(name: Octstr): Octstr { [QUESTION] + (UrlCode.Encode(name) + [QUESTION]) }

  function PackGroup(g: Group, order: seq<Octstr>): Octstr
    requires forall k :: k in order ==> k in g.values
  {
    PackName(g.name) + PackPairs(g.values, order)
  }

  ghost predicate Lists(order: seq<Octstr>, values: map<Octstr, Octstr>) {
    forall k :: k in order <==> k in values
  }

  /** An order of the keys for each of the first `n` groups. */
  ghost predicate OrdersTo(groups: seq<Group>, orders: seq<seq<Octstr>>, n: nat) {
    n <= |groups| && n <= |orders| && forall i :: 0 <= i < n ==> Lists(orders[i], groups[i].values)
  }

  /** The first `n` groups printed one after the other, for given key orders. */
  ghost function PackTo(groups: seq<Group>, orders: seq<seq<Octstr>>, n: nat): Octstr
    requires OrdersTo(groups, orders, n)
    decreases n
  {
    if n == 0 then [] else PackTo(groups, orders, n - 1) + PackGroup(groups[n - 1], orders[n - 1])
  }

  ghost predicate Orders(groups: seq<Group>, orders: seq<seq<Octstr>>) { OrdersTo(groups, orders, |groups|) }

  /** meta_data_pack, for given key orders. */
  ghost function Pack(groups: seq<Group>, orders: seq<seq<Octstr>>): Octstr
    requires Orders(groups, orders)
  {
    PackTo(groups, orders, |groups|)
  }

  // ----- reading

  /** What the machine is in: nothing, a group name, a key, a value. */
  datatype Mode = Nowhere | InGroup | InKey | InValue

  /** Between two characters `end` and `next_type` are always unset; the rest is this. */
  datatype Machine = Machine(start: int, mode: Mode, key: Option<Octstr>, groups: seq<Group>)

  /** What a character asks for: nothing, a new start, the end of a field, or giving up. */
  datatype Action = Stay | Begin(mode: Mode) | End(next: Mode) | Fail

  /** The character at a position; the terminating NUL counts as one. */
  function CharAt(data: Octstr, pos: nat): Octet
    requires pos <= |data|
  {
    if pos < |data| then data[pos] else 0
  }

  function React(c: Octet, m: Machine): Action {
    if c == QUESTION then
      if m.start == -1 then Begin(InGroup)
      else if m.mode == InGroup then End(InKey)
      else if m.mode == InValue && m.key.Some? then End(InGroup)
      else if m.key.None? then Begin(InGroup)
      else Fail
    else if c == EQUALS then
      if m.mode == InKey && m.groups != [] && m.key.None? then End(InValue) else Fail
    else if c == AMPERSAND then
      if m.mode == InValue && m.groups != [] && m.key.Some? then End(InKey)
      else if m.mode == InKey && m.key.None? then Begin(InKey)
      else Fail
    else if c == 0 && m.mode == InValue then End(Nowhere)
    else Stay
  }

  function PutLast(groups: seq<Group>, key: Octstr, value: Octstr): seq<Group>
    requires groups != []
  {
    var last := groups[|groups| - 1];
    groups[|groups| - 1 := last.(values := last.values[key := value])]
  }

  /** Storing the field that ended. */
  function Store(m: Machine, field: Octstr, pos: nat, next: Mode): Machine {
    match m.mode
    case InGroup => Machine(pos, next, m.key, m.groups + [Group(field, map[])])
    case InKey => Machine(pos, next, Some(field), m.groups)
    case InValue =>
      Machine(pos, next, None,
              if m.groups != [] && m.key.Some? then PutLast(m.groups, m.key.value, field) else m.groups)
    case Nowhere => Machine(pos, next, m.key, m.groups)
  }

  /** One character; None when the parse fails. */
  function Step(data: Octstr, pos: nat, m: Machine): Option<Machine>
    requires pos <= |data|
  {
    match React(CharAt(data, pos), m)
    case Stay => Some(m)
    case Begin(mode) => Some(m.(start := pos, mode := mode))
    case End(next) =>
      if 0 <= m.start < pos then Some(Store(m, UrlCode.Decode(data[m.start + 1..pos]), pos, next)) else Some(m)
    case Fail => None
  }

  /** The machine from a position to the terminating NUL. */
  function Rest(data: Octstr, pos: nat, m: Machine): Option<Machine>
    requires pos <= |data| + 1
    decreases |data| + 1 - pos
  {
    if pos > |data| then Some(m)
    else
      var next := Step(data, pos, m);
      if next.None? then None else Rest(data, pos + 1, next.value)
  }

  const START := Machine(-1, Nowhere, None, [])

  /** meta_data_unpack; a failed parse and an empty list are both the NULL list. */
  function Unpack(data: Octstr): seq<Group> {
    var m := Rest(data, 0, START);
    if m.Some? then m.value.groups else []
  }

  // ----- the machine on printed text

  lemma RestStep(data: Octstr, pos: nat, m: Machine, m': Machine)
    requires pos <= |data| && Step(data, pos, m) == Some(m')
    ensures Rest(data, pos, m) == Rest(data, pos + 1, m')
  {
  }

  /** Encoded text does not disturb the machine. */
  lemma {:induction false} SkipPlain(data: Octstr, pos: nat, text: Octstr, m: Machine, end: nat)
    requires Holds(data, pos, text) && (forall i :: 0 <= i < |text| ==> UrlCode.Plain(text[i])) && end == pos + |text|
    ensures Rest(data, pos, m) == Rest(data, end, m)
    decreases |text|
  {
    if text != [] {
      assert data[pos] == data[pos..end][0] == text[0];
      assert data[pos + 1..end] == data[pos..end][1..] == text[1..];
      RestStep(data, pos, m, m);
      SkipPlain(data, pos + 1, text[1..], m, end);
    }
  }

  lemma EndStep(data: Octstr, field: Octstr, m: Machine, next: Mode, stop: nat)
    requires m.start >= 0 && stop == m.start + 1 + |UrlCode.Encode(field)| && stop < |data|
    requires Holds(data, m.start + 1, UrlCode.Encode(field)) && React(data[stop], m) == End(next)
    ensures Step(data, stop, m) == Some(Store(m, field, stop, next))
  {
    HeldField(data, m.start + 1, field, stop);
  }

  lemma HeldField(data: Octstr, pos: nat, field: Octstr, stop: nat)
    requires Holds(data, pos, UrlCode.Encode(field)) && stop == pos + |UrlCode.Encode(field)|
    ensures UrlCode.Decode(data[pos..stop]) == field
  {
    UrlCode.DecodeInvertsEncode(field);
  }

  /** A field that starts after `m.start` and is closed by the character at `stop`. */
  lemma ReadField(data: Octstr, field: Octstr, m: Machine, next: Mode, stop: nat)
    requires m.start >= 0 && stop == m.start + 1 + |UrlCode.Encode(field)| && stop < |data|
    requires Holds(data, m.start + 1, UrlCode.Encode(field)) && React(data[stop], m) == End(next)
    ensures Rest(data, m.start + 1, m) == Rest(data, stop + 1, Store(m, field, stop, next))
  {
    UrlCode.EncodeIsPlain(field);
    SkipPlain(data, m.start + 1, UrlCode.Encode(field), m, stop);
    EndStep(data, field, m, next, stop);
    RestStep(data, stop, m, Store(m, field, stop, next));
  }

  lemma ReadKey(data: Octstr, key: Octstr, pos: nat, groups: seq<Group>, eq: nat)
    requires groups != [] && eq == pos + 1 + |UrlCode.Encode(key)| && eq < |data| && data[eq] == EQUALS
    requires Holds(data, pos + 1, UrlCode.Encode(key))
    ensures Rest(data, pos + 1, Machine(pos, InKey, None, groups))
         == Rest(data, eq + 1, Machine(eq, InValue, Some(key), groups))
  {
    ReadField(data, key, Machine(pos, InKey, None, groups), InValue, eq);
  }

  lemma ReadValue(data: Octstr, key: Octstr, value: Octstr, eq: nat, groups: seq<Group>, end: nat)
    requires groups != [] && end == eq + 1 + |UrlCode.Encode(value)| && end < |data| && data[end] == AMPERSAND
    requires Holds(data, eq + 1, UrlCode.Encode(value))
    ensures Rest(data, eq + 1, Machine(eq, InValue, Some(key), groups))
         == Rest(data, end + 1, Machine(end, InKey, None, PutLast(groups, key, value)))
  {
    ReadField(data, value, Machine(eq, InValue, Some(key), groups), InKey, end);
  }

  lemma FieldThenMark(data: Octstr, pos: nat, text: Octstr, mark: Octet)
    requires Holds(data, pos, text + [mark])
    ensures Holds(data, pos, text) && pos + |text| < |data| && data[pos + |text|] == mark
  {
    HoldsSplit(data, pos, text, [mark]);
    var at := pos + |text|;
    assert data[at] == data[at..at + 1][0];
  }

  lemma TwoFields(data: Octstr, pos: nat, k: Octstr, v: Octstr, eq: nat, end: nat)
    requires Holds(data, pos, k + [EQUALS] + (v + [AMPERSAND])) && eq == pos + |k| && end == eq + 1 + |v|
    ensures Holds(data, pos, k) && eq < |data| && data[eq] == EQUALS
    ensures Holds(data, eq + 1, v) && end < |data| && data[end] == AMPERSAND
  {
    HoldsSplit(data, pos, k + [EQUALS], v + [AMPERSAND]);
    FieldThenMark(data, pos, k, EQUALS);
    FieldThenMark(data, eq + 1, v, AMPERSAND);
  }

  /** A whole pair is read and put into the last group. */
  lemma ReadPair(data: Octstr, pos: nat, key: Octstr, value: Octstr, groups: seq<Group>, end: nat)
    requires groups != [] && Holds(data, pos + 1, PackPair(key, value)) && end == pos + |PackPair(key, value)|
    ensures end < |data|
    ensures Rest(data, pos + 1, Machine(pos, InKey, None, groups))
         == Rest(data, end + 1, Machine(end, InKey, None, PutLast(groups, key, value)))
  {
    var eq := pos + 1 + |UrlCode.Encode(key)|;
    TwoFields(data, pos + 1, UrlCode.Encode(key), UrlCode.Encode(value), eq, end);
    ReadKey(data, key, pos, groups, eq);
    ReadValue(data, key, value, eq, groups, end);
  }

  /** The last group with all pairs added in order. */
  function PutAll(groups: seq<Group>, values: map<Octstr, Octstr>, order: seq<Octstr>): seq<Group>
    requires groups != [] && forall k :: k in order ==> k in values
    decreases |order|
  {
    if order == [] then groups else PutAll(PutLast(groups, order[0], values[order[0]]), values, order[1..])
  }

  lemma {:induction false} ReadPairs(data: Octstr, pos: nat, values: map<Octstr, Octstr>, order: seq<Octstr>,
                                     groups: seq<Group>, end: nat)
    requires pos < |data| && groups != [] && forall k :: k in order ==> k in values
    requires Holds(data, pos + 1, PackPairs(values, order)) && end == pos + |PackPairs(values, order)|
    ensures end < |data|
    ensures Rest(data, pos + 1, Machine(pos, InKey, None, groups))
         == Rest(data, end + 1, Machine(end, InKey, None, PutAll(groups, values, order)))
    decreases |order|
  {
    if order != [] {
      var k := order[0];
      var mid := pos + |PackPair(k, values[k])|;
      HoldsSplit(data, pos + 1, PackPair(k, values[k]), PackPairs(values, order[1..]));
      ReadPair(data, pos, k, values[k], groups, mid);
      ReadPairs(data, mid, values, order[1..], PutLast(groups, k, values[k]), end);
    }
  }

  /** A state in which a question mark opens a new group. */
  predicate Ready(m: Machine) { m.key.None? && (m.start == -1 || (m.start >= 0 && m.mode == InKey)) }

  lemma NameLayout(data: Octstr, pos: nat, name: Octstr, end: nat)
    requires Holds(data, pos, PackName(name)) && end == pos + 1 + |UrlCode.Encode(name)|
    ensures pos < end < |data| && data[pos] == data[end] == QUESTION && Holds(data, pos + 1, UrlCode.Encode(name))
  {
    var e := UrlCode.Encode(name);
    HoldsSplit(data, pos, [QUESTION], e + [QUESTION]);
    FieldThenMark(data, pos + 1, e, QUESTION);
    assert data[pos] == data[pos..pos + 1][0];
  }

  lemma ReadName(data: Octstr, pos: nat, name: Octstr, m: Machine, end: nat)
    requires Ready(m) && Holds(data, pos, PackName(name)) && end == pos + 1 + |UrlCode.Encode(name)|
    ensures end < |data|
    ensures Rest(data, pos, m) == Rest(data, end + 1, Machine(end, InKey, None, m.groups + [Group(name, map[])]))
  {
    NameLayout(data, pos, name, end);
    var inName := m.(start := pos, mode := InGroup);
    RestStep(data, pos, m, inName);
    ReadField(data, name, inName, InKey, end);
  }

  // ----- what the pairs add up to

  /** The last group with the listed pairs added to it. */
  lemma {:induction false} PutAllMeaning(groups: seq<Group>, values: map<Octstr, Octstr>, order: seq<Octstr>)
    requires groups != [] && forall k :: k in order ==> k in values
    ensures var r, n := PutAll(groups, values, order), |groups| - 1;
            && |r| == |groups| && r[..n] == groups[..n] && r[n].name == groups[n].name
            && (forall k :: k in r[n].values <==> k in groups[n].values || k in order)
            && (forall k :: k in r[n].values ==>
                  r[n].values[k] == if k in order then values[k] else groups[n].values[k])
    decreases |order|
  {
    if order != [] {
      var next := PutLast(groups, order[0], values[order[0]]);
      assert next[..|groups| - 1] == groups[..|groups| - 1];
      PutAllMeaning(next, values, order[1..]);
      assert forall k :: k in order <==> k == order[0] || k in order[1..];
    }
  }

  lemma PutAllRebuilds(groups: seq<Group>, g: Group, order: seq<Octstr>)
    requires Lists(order, g.values)
    ensures PutAll(groups + [Group(g.name, map[])], g.values, order) == groups + [g]
  {
    var fresh' := groups + [Group(g.name, map[])];
    PutAllMeaning(fresh', g.values, order);
    var r := PutAll(fresh', g.values, order);
    assert fresh'[..|groups|] == groups;
    assert r[|groups|].values == g.values;
    assert r == r[..|groups|] + [r[|groups|]];
  }

  /** One printed group at `pos`: its name ends at `q`, its last pair at `end`. */
  lemma ReadGroup(data: Octstr, pos: nat, g: Group, order: seq<Octstr>, m: Machine, end: nat)
    requires Lists(order, g.values) && Ready(m)
    requires Holds(data, pos, PackGroup(g, order)) && end + 1 == pos + |PackGroup(g, order)|
    ensures end < |data| && Rest(data, pos, m) == Rest(data, end + 1, Machine(end, InKey, None, m.groups + [g]))
  {
    var q := pos + 1 + |UrlCode.Encode(g.name)|;
    HoldsParts(data, pos, PackGroup(g, order), PackName(g.name), PackPairs(g.values, order), q + 1);
    ReadName(data, pos, g.name, m, q);
    PutAllRebuilds(m.groups, g, order);
    ReadPairs(data, q, g.values, order, m.groups + [Group(g.name, map[])], end);
  }

  /** The group behind the first `n` ones. */
  lemma NextGroup(data: Octstr, groups: seq<Group>, orders: seq<seq<Octstr>>, n: nat, pos: nat, end: nat)
    requires n < |groups| && OrdersTo(groups, orders, n + 1) && Holds(data, 0, PackTo(groups, orders, n + 1))
    requires pos == |PackTo(groups, orders, n)| && end == pos + |PackGroup(groups[n], orders[n])|
    ensures Holds(data, 0, PackTo(groups, orders, n)) && Holds(data, pos, PackGroup(groups[n], orders[n]))
    ensures end == |PackTo(groups, orders, n + 1)| && pos < end
  {
    HoldsParts(data, 0, PackTo(groups, orders, n + 1), PackTo(groups, orders, n), PackGroup(groups[n], orders[n]), pos);
  }

  lemma ReadNext(data: Octstr, groups: seq<Group>, orders: seq<seq<Octstr>>, n: nat, pos: nat, end: nat, m: Machine)
    requires n < |groups| && OrdersTo(groups, orders, n + 1) && Ready(m)
    requires Holds(data, pos, PackGroup(groups[n], orders[n])) && end == pos + |PackGroup(groups[n], orders[n])| > pos
    ensures Rest(data, pos, m) == Rest(data, end, Machine(end - 1, InKey, None, m.groups + [groups[n]]))
  {
    assert Lists(orders[n], groups[n].values);
    ReadGroup(data, pos, groups[n], orders[n], m, end - 1);
  }

  /** The machine behind the first `n` groups. */
  function Behind(groups: seq<Group>, n: nat, end: nat): (m: Machine)
    requires n <= |groups|
    ensures Ready(m) && m.mode != InValue
  {
    if n == 0 || end == 0 then START else Machine(end - 1, InKey, None, groups[..n])
  }

  lemma BehindStep(groups: seq<Group>, n: nat, pos: nat, end: nat)
    requires n < |groups| && pos < end && (n == 0 <==> pos == 0)
    ensures Machine(end - 1, InKey, None, Behind(groups, n, pos).groups + [groups[n]]) == Behind(groups, n + 1, end)
  {
    assert groups[..n + 1] == groups[..n] + [groups[n]];
  }

  /** The beginning of the printed text. */
  lemma {:induction false} HoldsFirst(data: Octstr, groups: seq<Group>, orders: seq<seq<Octstr>>, n: nat, i: nat)
    requires i <= n && OrdersTo(groups, orders, n) && Holds(data, 0, PackTo(groups, orders, n))
    ensures OrdersTo(groups, orders, i) && Holds(data, 0, PackTo(groups, orders, i))
    decreases n - i
  {
    if i < n {
      HoldsFirst(data, groups, orders, n, i + 1);
      NextGroup(data, groups, orders, i, |PackTo(groups, orders, i)|, |PackTo(groups, orders, i + 1)|);
    }
  }

  /** From one group to the next. */
  lemma ReadAt(data: Octstr, groups: seq<Group>, orders: seq<seq<Octstr>>, i: nat, pos: nat, end: nat)
    requires i < |groups| && OrdersTo(groups, orders, i + 1) && Holds(data, 0, PackTo(groups, orders, i + 1))
    requires pos == |PackTo(groups, orders, i)| && end == |PackTo(groups, orders, i + 1)|
    ensures Rest(data, pos, Behind(groups, i, pos)) == Rest(data, end, Behind(groups, i + 1, end))
  {
    NextGroup(data, groups, orders, i, pos, end);
    PrintedSomething(groups, orders, i);
    BehindStep(groups, i, pos, end);
    ReadNext(data, groups, orders, i, pos, end, Behind(groups, i, pos));
  }

  /** The rest of the reading, from behind the first `i` groups on. */
  ghost function RestBehind(data: Octstr, groups: seq<Group>, orders: seq<seq<Octstr>>, i: nat): Option<Machine> {
    if OrdersTo(groups, orders, i) && Holds(data, 0, PackTo(groups, orders, i))
    then Rest(data, |PackTo(groups, orders, i)|, Behind(groups, i, |PackTo(groups, orders, i)|)) else None
  }

  lemma {:induction false} ReadGroups(data: Octstr, groups: seq<Group>, orders: seq<seq<Octstr>>, n: nat, i: nat)
    requires i <= n && OrdersTo(groups, orders, n) && Holds(data, 0, PackTo(groups, orders, n))
    ensures RestBehind(data, groups, orders, 0) == RestBehind(data, groups, orders, i)
    decreases i
  {
    if i > 0 {
      ReadGroups(data, groups, orders, n, i - 1);
      OneGroupOn(data, groups, orders, n, i - 1);
    }
  }

  lemma OneGroupOn(data: Octstr, groups: seq<Group>, orders: seq<seq<Octstr>>, n: nat, i: nat)
    requires i < n && OrdersTo(groups, orders, n) && Holds(data, 0, PackTo(groups, orders, n))
    ensures RestBehind(data, groups, orders, i) == RestBehind(data, groups, orders, i + 1)
  {
    HoldsFirst(data, groups, orders, n, i);
    HoldsFirst(data, groups, orders, n, i + 1);
    ReadAt(data, groups, orders, i, |PackTo(groups, orders, i)|, |PackTo(groups, orders, i + 1)|);
  }

  lemma PrintedSomething(groups: seq<Group>, orders: seq<seq<Octstr>>, n: nat)
    requires OrdersTo(groups, orders, n)
    ensures PackTo(groups, orders, n) == [] <==> n == 0
  {
  }

  lemma LastStep(data: Octstr, m: Machine)
    requires Ready(m) && m.mode != InValue
    ensures Rest(data, |data|, m) == Some(m)
  {
    RestStep(data, |data|, m, m);
  }

  /** Reading a printed list gives the list back, whatever the names, keys, values and key order. */
  lemma UnpackInvertsPack(groups: seq<Group>, orders: seq<seq<Octstr>>)
    requires Orders(groups, orders)
    ensures Unpack(Pack(groups, orders)) == groups
  {
    var data := Pack(groups, orders);
    ReadGroups(data, groups, orders, |groups|, |groups|);
    LastStep(data, Behind(groups, |groups|, |data|));
    PrintedSomething(groups, orders, |groups|);
    assert groups[..|groups|] == groups;
  }

  // ----- the loops

  /** Values only ever end with their key and group at hand. */
  predicate Sound(m: Machine, pos: nat) {
    && -1 <= m.start < pos
    && (m.mode != Nowhere ==> m.start >= 0)
    && (m.mode == InValue ==> m.key.Some? && m.groups != [])
  }

  /** The body of the character loop with its four control variables. */
  method Advance(data: Octstr, pos: nat, m: Machine) returns (r: Option<Machine>)
    requires pos <= |data| && Sound(m, pos)
    ensures r == Step(data, pos, m)
    ensures r.Some? ==> Sound(r.value, pos + 1)
  {
    var start, end: int, mode, next: Mode := m.start, -1, m.mode, Nowhere;
    var key, groups := m.key, m.groups;
    var c := CharAt(data, pos);
    if c == QUESTION {
      if start == -1 {
        start, mode := pos, InGroup;
      } else if mode == InGroup {
        end, next := pos, InKey;
      } else if mode == InValue && key.Some? {
        end, next := pos, InGroup;
      } else if key.None? {
        start, mode := pos, InGroup;
      } else {
        return None;
      }
    } else if c == EQUALS {
      if mode == InKey && groups != [] && key.None? {
        end, next := pos, InValue;
      } else {
        return None;
      }
    } else if c == AMPERSAND {
      if mode == InValue && groups != [] && key.Some? {
        end, next := pos, InKey;
      } else if mode == InKey && key.None? {
        start := pos;
      } else {
        return None;
      }
    } else if c == 0 {
      if mode == InValue { end := pos; }
    }
    if start >= 0 && end >= 0 {
      var tmp := UrlCode.Decode(data[start + 1..end]);
      match mode {
        case InGroup => groups := groups + [Group(tmp, map[])];
        case InKey => key := Some(tmp);
        case InValue =>
          groups := PutLast(groups, key.value, tmp);
          key := None;
        case Nowhere =>
      }
      mode, next, start, end := next, Nowhere, end, -1;
    }
    r := Some(Machine(start, mode, key, groups));
  }

  method MetaDataUnpack(data: Octstr) returns (groups: seq<Group>)
    ensures groups == Unpack(data)
  {
    var m := START;
    for pos := 0 to |data| + 1
      invariant Sound(m, pos) && Rest(data, pos, m) == Rest(data, 0, START)
    {
      var next := Advance(data, pos, m);
      if next.None? { return []; }
      m := next.value;
    }
    groups := m.groups;
  }

  /** Some order of the keys, as the hash table gives it. */
  method KeyOrder(values: map<Octstr, Octstr>) returns (order: seq<Octstr>)
    ensures Lists(order, values)
  {
    order := [];
    var rest := values.Keys;
    while rest != {}
      invariant rest <= values.Keys
      invariant forall k :: k in order <==> k in values && k !in rest
      decreases |rest|
    {
      var k :| k in rest;
      order := order + [k];
      rest := rest - {k};
    }
  }

  /** The key orders of further groups do not matter. */
  lemma {:induction false} PackToAppend(groups: seq<Group>, orders: seq<seq<Octstr>>, order: seq<Octstr>, n: nat)
    requires OrdersTo(groups, orders, n)
    ensures OrdersTo(groups, orders + [order], n) && PackTo(groups, orders + [order], n) == PackTo(groups, orders, n)
    decreases n
  {
    if n > 0 { PackToAppend(groups, orders, order, n - 1); }
  }

  method MetaDataPack(groups: seq<Group>) returns (data: Octstr)
    ensures exists orders :: Orders(groups, orders) && data == Pack(groups, orders)
  {
    data := [];
    ghost var orders: seq<seq<Octstr>> := [];
    for i := 0 to |groups|
      invariant |orders| == i && OrdersTo(groups, orders, i) && data == PackTo(groups, orders, i)
    {
      var order := KeyOrder(groups[i].values);
      var pairs := AppendPairs(groups[i].values, order);
      PackToAppend(groups, orders, order, i);
      data := data + (PackName(groups[i].name) + pairs);
      orders := orders + [order];
    }
    assert Orders(groups, orders);
  }

  method AppendPairs(values: map<Octstr, Octstr>, order: seq<Octstr>) returns (out: Octstr)
    requires forall k :: k in order ==> k in values
    ensures out == PackPairs(values, order)
  {
    out := [];
    assert order[0..] == order;
    for i := 0 to |order|
      invariant out + PackPairs(values, order[i..]) == PackPairs(values, order)
    {
      PairsStep(out, values, order[i..]);
      out := out + PackPair(order[i], values[order[i]]);
      assert order[i..][1..] == order[i + 1..];
    }
    assert out + [] == out;
  }

  lemma PairsStep(out: Octstr, values: map<Octstr, Octstr>, todo: seq<Octstr>)
    requires todo != [] && forall k :: k in todo ==> k in values
    ensures out + PackPairs(values, todo) == out + PackPair(todo[0], values[todo[0]]) + PackPairs(values, todo[1..])
  {
  }
}
