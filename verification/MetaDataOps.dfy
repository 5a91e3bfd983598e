/** Setting, getting and merging meta-data values on the packed form (gw/meta_data.c). */
module MetaDataOps {
  import opened Octets
  import opened MetaData

  // ----- group names

  function Lower(c: Octet): Octet { if 0x41 <= c <= 0x5a then c + 0x20 else c }

  function Folded(s: Octstr): Octstr {
    var c := CString(s);
    seq(|c|, i requires 0 <= i < |c| => Lower(c[i]))
  }

  /** strcasecmp on the C strings is zero. */
  predicate SameGroup(a: Octstr, b: Octstr) { Folded(a) == Folded(b) }

  /** The first group with that name, or the length of the list. */
  function Find(groups: seq<Group>, group: Octstr): (i: nat)
    ensures i <= |groups| && (i < |groups| ==> SameGroup(groups[i].name, group))
    ensures forall j :: 0 <= j < i ==> !SameGroup(groups[j].name, group)
  {
    if groups == [] || SameGroup(groups[0].name, group) then 0 else 1 + Find(groups[1..], group)
  }

  // ----- get and set

  function Get(groups: seq<Group>, group: Octstr, key: Octstr): Option<Octstr> {
    var i := Find(groups, group);
    if i < |groups| && key in groups[i].values then Some(groups[i].values[key]) else None
  }

  function GetValue(data: Octstr, group: Octstr, key: Octstr): Option<Octstr> { Get(Unpack(data), group, key) }

  /** The list with the group there; a new one goes second, or first into an empty list. */
  function WithGroup(groups: seq<Group>, group: Octstr): (r: seq<Group>)
    ensures Find(r, group) < |r|
  {
    if Find(groups, group) < |groups| then groups
    else if groups == [] then [Group(group, map[])]
    else
      var r := [groups[0], Group(group, map[])] + groups[1..];
      assert r[1].name == group;
      r
  }

  function Set(groups: seq<Group>, group: Octstr, key: Octstr, value: Octstr, replace: bool): seq<Group> {
    var r := WithGroup(groups, group);
    var i := Find(r, group);
    if replace || key !in r[i].values then r[i := r[i].(values := r[i].values[key := value])] else r
  }

  /** What meta_data_set_value may leave in its buffer, whatever order the keys come out in. */
  ghost predicate SetResult(data: Octstr, group: Octstr, key: Octstr, value: Octstr, replace: bool, data': Octstr) {
    var groups := Set(Unpack(data), group, key, value, replace);
    exists orders :: Orders(groups, orders) && data' == Pack(groups, orders)
  }

  lemma FindIs(groups: seq<Group>, group: Octstr, i: nat)
    requires i <= |groups| && (i < |groups| ==> SameGroup(groups[i].name, group))
    requires forall j :: 0 <= j < i ==> !SameGroup(groups[j].name, group)
    ensures Find(groups, group) == i
  {
  }

  /** Making room for a group changes no value. */
  lemma WithGroupKeeps(groups: seq<Group>, group: Octstr, g: Octstr, k: Octstr)
    ensures Get(WithGroup(groups, group), g, k) == Get(groups, g, k)
  {
    var r := WithGroup(groups, group);
    if r != groups && groups != [] {
      var f := Find(groups, g);
      if SameGroup(group, g) {
        assert forall j :: 0 <= j < |groups| ==> !SameGroup(groups[j].name, g);
        FindIs(r, g, 1);
      } else {
        FindIs(r, g, if f == 0 then 0 else f + 1);
      }
    }
  }

  lemma SetMeaning(groups: seq<Group>, group: Octstr, key: Octstr, value: Octstr, replace: bool, g: Octstr, k: Octstr)
    ensures Get(Set(groups, group, key, value, replace), g, k)
         == if SameGroup(g, group) && k == key && (replace || Get(groups, group, key).None?) then Some(value)
            else Get(groups, g, k)
  {
    var r := WithGroup(groups, group);
    var i, f := Find(r, group), Find(r, g);
    WithGroupKeeps(groups, group, g, k);
    WithGroupKeeps(groups, group, group, key);
    var s := Set(groups, group, key, value, replace);
    assert forall j :: 0 <= j < |r| ==> s[j].name == r[j].name;
    FindIs(s, g, f);
    if SameGroup(g, group) { FindIs(r, g, i); }
  }

  /** Get after set, on the packed strings: the pair that was set reads back as set, every pair with
      another key or a group that is not case-equal reads as before. */
  lemma GetAfterSet(data: Octstr, group: Octstr, key: Octstr, value: Octstr, replace: bool, data': Octstr, g: Octstr,
                    k: Octstr)
    requires SetResult(data, group, key, value, replace, data')
    ensures GetValue(data', g, k)
         == if SameGroup(g, group) && k == key && (replace || GetValue(data, group, key).None?) then Some(value)
            else GetValue(data, g, k)
  {
    var groups := Set(Unpack(data), group, key, value, replace);
    var orders :| Orders(groups, orders) && data' == Pack(groups, orders);
    UnpackInvertsPack(groups, orders);
    SetMeaning(Unpack(data), group, key, value, replace, g, k);
  }

  method MetaDataSetValue(data: Octstr, group: Octstr, key: Octstr, value: Octstr, replace: bool) returns (out: Octstr)
    ensures SetResult(data, group, key, value, replace, out)
  {
    var groups := MetaDataUnpack(data);
    var i := FindLoop(groups, group);
    if i == |groups| {
      if groups != [] {
        groups := [groups[0], Group(group, map[])] + groups[1..];
        i := 1;
        FindIs(groups, group, 1);
      } else {
        groups := [Group(group, map[])];
        i := 0;
      }
    }
    assert groups == WithGroup(Unpack(data), group) && i == Find(groups, group);
    if replace {
      var values := groups[i].values - {key};
      values := values[key := value];
      assert values == groups[i].values[key := value];
      groups := groups[i := groups[i].(values := values)];
    } else if key !in groups[i].values {
      groups := groups[i := groups[i].(values := groups[i].values[key := value])];
    }
    assert groups == Set(Unpack(data), group, key, value, replace);
    out := MetaDataPack(groups);
  }

  method MetaDataGetValue(data: Octstr, group: Octstr, key: Octstr) returns (ret: Option<Octstr>)
    ensures ret == GetValue(data, group, key)
  {
    var groups := MetaDataUnpack(data);
    var i := FindLoop(groups, group);
    ret := if i < |groups| && key in groups[i].values then Some(groups[i].values[key]) else None;
  }

  method FindLoop(groups: seq<Group>, group: Octstr) returns (i: nat)
    ensures i == Find(groups, group)
  {
    i := 0;
    while i < |groups| && !SameGroup(groups[i].name, group)
      invariant i <= |groups|
      invariant forall j :: 0 <= j < i ==> !SameGroup(groups[j].name, group)
    {
      i := i + 1;
    }
    FindIs(groups, group, i);
  }

  // ----- merge

  /** Here names are compared exactly. */
  function IndexOf(groups: seq<Group>, name: Octstr): (i: nat)
    ensures i <= |groups| && (i < |groups| ==> groups[i].name == name)
    ensures forall j :: 0 <= j < i ==> groups[j].name != name
  {
    if groups == [] || groups[0].name == name then 0 else 1 + IndexOf(groups[1..], name)
  }

  function ValuesOf(groups: seq<Group>, name: Octstr): Option<map<Octstr, Octstr>> {
    var i := IndexOf(groups, name);
    if i < |groups| then Some(groups[i].values) else None
  }

  /** New pairs over old ones, or under them. */
  function Over(old': map<Octstr, Octstr>, new': map<Octstr, Octstr>, replace: bool): map<Octstr, Octstr> {
    if replace then old' + new' else new' + old'
  }

  function MergeGroup(groups: seq<Group>, g: Group, replace: bool): seq<Group> {
    var i := IndexOf(groups, g.name);
    if i < |groups| then groups[i := Group(g.name, Over(groups[i].values, g.values, replace))] else groups + [g]
  }

  function MergeAll(groups: seq<Group>, news: seq<Group>, replace: bool): seq<Group>
    decreases |news|
  {
    if news == [] then groups else MergeAll(MergeGroup(groups, news[0], replace), news[1..], replace)
  }

  predicate DistinctNames(groups: seq<Group>) {
    forall i, j :: 0 <= i < j < |groups| ==> groups[i].name != groups[j].name
  }

  function Combined(a: Option<map<Octstr, Octstr>>, b: Option<map<Octstr, Octstr>>,
                    replace: bool): Option<map<Octstr, Octstr>>
  {
    if b.None? then a else if a.None? then b else Some(Over(a.value, b.value, replace))
  }

  lemma IndexIs(groups: seq<Group>, name: Octstr, i: nat)
    requires i <= |groups| && (i < |groups| ==> groups[i].name == name)
    requires forall j :: 0 <= j < i ==> groups[j].name != name
    ensures IndexOf(groups, name) == i
  {
  }

  lemma MergeGroupMeaning(groups: seq<Group>, g: Group, replace: bool, name: Octstr)
    ensures ValuesOf(MergeGroup(groups, g, replace), name)
         == Combined(ValuesOf(groups, name), if name == g.name then Some(g.values) else None, replace)
  {
    var r := MergeGroup(groups, g, replace);
    var f := IndexOf(groups, name);
    if f < |groups| || name != g.name {
      IndexIs(r, name, if f < |groups| then f else |r|);
    } else {
      IndexIs(r, name, |groups|);
    }
  }

  /** Merging is the group-wise override of two maps, when the new list names no group twice. */
  lemma {:induction false} MergeMeaning(groups: seq<Group>, news: seq<Group>, replace: bool, name: Octstr)
    requires DistinctNames(news)
    ensures ValuesOf(MergeAll(groups, news, replace), name)
         == Combined(ValuesOf(groups, name), ValuesOf(news, name), replace)
    decreases |news|
  {
    if news != [] {
      MergeGroupMeaning(groups, news[0], replace, name);
      MergeMeaning(MergeGroup(groups, news[0], replace), news[1..], replace, name);
      if name == news[0].name {
        IndexIs(news[1..], name, |news| - 1);
        IndexIs(news, name, 0);
      } else {
        IndexIs(news, name, 1 + IndexOf(news[1..], name));
      }
    }
  }

  /** What meta_data_merge may return. */
  ghost predicate MergeResult(data: Octstr, newData: Octstr, replace: bool, out: Octstr) {
    if data == [] then out == newData
    else if newData == [] then out == data
    else if Unpack(data) == [] then out == newData
    else if Unpack(newData) == [] then out == data
    else
      var groups := MergeAll(Unpack(data), Unpack(newData), replace);
      exists orders :: Orders(groups, orders) && out == Pack(groups, orders)
  }

  lemma MergeOverrides(data: Octstr, newData: Octstr, replace: bool, out: Octstr, name: Octstr)
    requires MergeResult(data, newData, replace, out) && DistinctNames(Unpack(newData))
    ensures ValuesOf(Unpack(out), name)
         == Combined(ValuesOf(Unpack(data), name), ValuesOf(Unpack(newData), name), replace)
  {
    if Unpack(data) != [] && Unpack(newData) != [] {
      NonEmptyText(data);
      NonEmptyText(newData);
      var groups := MergeAll(Unpack(data), Unpack(newData), replace);
      var orders :| Orders(groups, orders) && out == Pack(groups, orders);
      UnpackInvertsPack(groups, orders);
      MergeMeaning(Unpack(data), Unpack(newData), replace, name);
    }
  }

  lemma NonEmptyText(data: Octstr)
    ensures data == [] ==> Unpack(data) == []
  {
    if data == [] { RestStep(data, 0, START, START); }
  }

  method MetaDataMerge(data: Octstr, newData: Octstr, replace: bool) returns (out: Octstr)
    ensures MergeResult(data, newData, replace, out)
  {
    if |data| < 1 { return newData; }
    if |newData| < 1 { return data; }
    var groups := MetaDataUnpack(data);
    if groups == [] { return newData; }
    var news := MetaDataUnpack(newData);
    if news == [] { return data; }
    ghost var all := MergeAll(groups, news, replace);
    for i := 0 to |news|
      invariant groups != [] && MergeAll(groups, news[i..], replace) == all
    {
      assert news[i..][1..] == news[i + 1..];
      groups := MergeLoop(groups, news[i], replace);
    }
    out := MetaDataPack(groups);
  }

  /** The inner loop: walk the list, adding an empty group behind the last one when nothing matched. */
  method MergeLoop(groups: seq<Group>, g: Group, replace: bool) returns (r: seq<Group>)
    requires groups != []
    ensures r == MergeGroup(groups, g, replace) && r != []
  {
    r := groups;
    var i := 0;
    while i < |r|
      invariant 0 <= i < |r| && (forall j :: 0 <= j < i ==> r[j].name != g.name)
      invariant r == groups
        || (r == groups + [Group(g.name, map[])] && i == |groups| && IndexOf(groups, g.name) == |groups|)
      decreases |groups| + 1 - i
    {
      if r[i].name == g.name {
        var values := if replace then r[i].values + g.values else g.values + r[i].values;
        if i < |groups| { IndexIs(groups, g.name, i); }
        assert map[] + g.values == g.values == g.values + map[];
        r := r[i := r[i].(values := values)];
        return;
      } else if i == |r| - 1 {
        IndexIs(groups, g.name, |groups|);
        r := r + [Group(g.name, map[])];
      }
      i := i + 1;
    }
  }
}
