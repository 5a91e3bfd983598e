/** Graceful restart (gw/bb_smscconn.c, gw/smscconn.c): matching the running connections against a
    new configuration by two checksums, one of the whole group and one of its connection part. */
module Restart {
  import opened Octets

  /** The checksum of a whole configuration group; checksums of different groups differ. */
  type Sum = int

  /** A group of the new configuration, how many connections its instances yield, and its smsc-id. */
  datatype Group = Group(full: Sum, instances: nat, id: Option<Octstr>)

  /** A running connection, the checksum of the group it currently follows, and its smsc-id. */
  datatype Conn = Conn(uid: nat, full: Sum, id: Option<Octstr>)

  /** The loop state: connections with their current checksums, those to keep, groups to add. */
  datatype Pass = Pass(list: seq<Conn>, kept: set<nat>, add: seq<Group>)

  // ----- the matching loop

  /** Positions of connections that follow this very group. */
  function SameFull(list: seq<Conn>, g: Group): set<nat> { set i: nat | i < |list| && list[i].full == g.full }

  /** Positions of connections with the same connection part; `part` is the checksum of that part. */
  function SamePart(list: seq<Conn>, g: Group, part: Sum -> Sum): set<nat> {
    set i: nat | i < |list| && part(list[i].full) == part(g.full)
  }

  /** smscconn_reconfig on the listed connections, as far as checksums go. */
  function Rewritten(list: seq<Conn>, which: set<nat>, full: Sum): (r: seq<Conn>)
    ensures |r| == |list|
    ensures forall i :: 0 <= i < |list| ==> r[i] == if i in which then list[i].(full := full) else list[i]
  {
    seq(|list|, i requires 0 <= i < |list| => if i in which then list[i].(full := full) else list[i])
  }

  /** One group: a full match keeps, a match of the connection part keeps and rewrites, else the group is added. */
  function Turn(p: Pass, g: Group, part: Sum -> Sum): Pass {
    if SameFull(p.list, g) != {} then p.(kept := p.kept + SameFull(p.list, g))
    else if SamePart(p.list, g, part) != {} then
      Pass(Rewritten(p.list, SamePart(p.list, g, part), g.full), p.kept + SamePart(p.list, g, part), p.add)
    else p.(add := p.add + [g])
  }

  function Turns(list: seq<Conn>, groups: seq<Group>, part: Sum -> Sum): Pass {
    if groups == [] then Pass(list, {}, [])
    else Turn(Turns(list, groups[..|groups| - 1], part), groups[|groups| - 1], part)
  }

  // ----- what it amounts to

  ghost predicate Follows(list: seq<Conn>, full: Sum) { exists i :: 0 <= i < |list| && list[i].full == full }

  ghost predicate Configured(groups: seq<Group>, full: Sum) { exists j :: 0 <= j < |groups| && groups[j].full == full }

  /** Some group with this connection part has no connection that already follows it. */
  ghost predicate Reconfigured(list: seq<Conn>, groups: seq<Group>, k: Sum, part: Sum -> Sum) {
    exists j :: 0 <= j < |groups| && part(groups[j].full) == k && !Follows(list, groups[j].full)
  }

  /** After the groups so far: connections whose part is not reconfigured are as they were and kept iff
      their group is still configured; all others are kept and follow one and the same configured group. */
  ghost predicate Explained(list: seq<Conn>, groups: seq<Group>, part: Sum -> Sum, p: Pass, i: nat)
    requires i < |list| == |p.list|
  {
    && p.list[i].uid == list[i].uid && p.list[i].id == list[i].id && part(p.list[i].full) == part(list[i].full)
    && (if Reconfigured(list, groups, part(list[i].full), part)
        then i in p.kept && Configured(groups, p.list[i].full)
        else p.list[i] == list[i] && (i in p.kept <==> Configured(groups, list[i].full)))
  }

  /** Two connections with the same connection part, which is reconfigured. */
  ghost predicate Together(list: seq<Conn>, groups: seq<Group>, part: Sum -> Sum, i: nat, j: nat)
    requires i < |list| && j < |list|
  {
    part(list[i].full) == part(list[j].full) && Reconfigured(list, groups, part(list[i].full), part)
  }

  ghost predicate Uniform(list: seq<Conn>, groups: seq<Group>, part: Sum -> Sum, p: Pass)
    requires |list| == |p.list|
  {
    forall i, j :: 0 <= i < |list| && 0 <= j < |list| && Together(list, groups, part, i, j) ==>
      p.list[i].full == p.list[j].full
  }

  ghost predicate Meaning(list: seq<Conn>, groups: seq<Group>, part: Sum -> Sum, p: Pass) {
    && |p.list| == |list| && (forall i :: i in p.kept ==> i < |list|)
    && (forall i :: 0 <= i < |list| ==> Explained(list, groups, part, p, i))
    && Uniform(list, groups, part, p)
  }

  lemma ConfiguredAppend(groups: seq<Group>, g: Group, full: Sum)
    ensures Configured(groups + [g], full) <==> Configured(groups, full) || g.full == full
  {
    var all := groups + [g];
    if Configured(groups, full) {
      var j :| 0 <= j < |groups| && groups[j].full == full;
      assert all[j].full == full;
    }
    if g.full == full { assert all[|groups|].full == full; }
  }

  lemma ReconfiguredAppend(list: seq<Conn>, groups: seq<Group>, g: Group, k: Sum, part: Sum -> Sum)
    ensures Reconfigured(list, groups + [g], k, part)
       <==> Reconfigured(list, groups, k, part) || (part(g.full) == k && !Follows(list, g.full))
  {
    var all := groups + [g];
    if Reconfigured(list, groups, k, part) {
      var j :| 0 <= j < |groups| && part(groups[j].full) == k && !Follows(list, groups[j].full);
      assert all[j] == groups[j];
    }
    if part(g.full) == k && !Follows(list, g.full) { assert all[|groups|] == g; }
  }

  /** Whether the next group is already followed, seen from the loop and from the original list. */
  lemma FollowedWhenUntouched(list: seq<Conn>, groups: seq<Group>, part: Sum -> Sum, p: Pass, g: Group)
    requires Meaning(list, groups, part, p) && !Reconfigured(list, groups, part(g.full), part)
    ensures SameFull(p.list, g) != {} <==> Follows(list, g.full)
  {
    if Follows(list, g.full) {
      var i :| 0 <= i < |list| && list[i].full == g.full;
      assert Explained(list, groups, part, p, i);
      assert i in SameFull(p.list, g);
    }
    if SameFull(p.list, g) != {} {
      var i :| i in SameFull(p.list, g);
      assert Explained(list, groups, part, p, i);
    }
  }

  lemma TurnExplains(list: seq<Conn>, groups: seq<Group>, part: Sum -> Sum, p: Pass, g: Group, i: nat)
    requires Meaning(list, groups, part, p) && i < |list|
    ensures Explained(list, groups + [g], part, Turn(p, g, part), i)
  {
    var p' := Turn(p, g, part);
    assert Explained(list, groups, part, p, i);
    ConfiguredAppend(groups, g, list[i].full);
    ConfiguredAppend(groups, g, p'.list[i].full);
    ReconfiguredAppend(list, groups, g, part(list[i].full), part);
    if part(list[i].full) == part(g.full) {
      assert i in SamePart(p.list, g, part);
      if !Reconfigured(list, groups, part(g.full), part) { FollowedWhenUntouched(list, groups, part, p, g); }
    }
  }

  lemma TurnUniform(list: seq<Conn>, groups: seq<Group>, part: Sum -> Sum, p: Pass, g: Group, i: nat, j: nat)
    requires Meaning(list, groups, part, p) && i < |list| && j < |list| && Together(list, groups + [g], part, i, j)
    ensures Turn(p, g, part).list[i].full == Turn(p, g, part).list[j].full
  {
    assert Explained(list, groups, part, p, i) && Explained(list, groups, part, p, j);
    ReconfiguredAppend(list, groups, g, part(list[i].full), part);
    if part(list[i].full) == part(g.full) {
      assert i in SamePart(p.list, g, part) && j in SamePart(p.list, g, part);
      if !Reconfigured(list, groups, part(g.full), part) { FollowedWhenUntouched(list, groups, part, p, g); }
      else { assert Together(list, groups, part, i, j); }
    } else {
      assert Together(list, groups, part, i, j);
    }
  }

  lemma TurnMeaning(list: seq<Conn>, groups: seq<Group>, part: Sum -> Sum, p: Pass, g: Group)
    requires Meaning(list, groups, part, p)
    ensures Meaning(list, groups + [g], part, Turn(p, g, part))
  {
    forall i | 0 <= i < |list| ensures Explained(list, groups + [g], part, Turn(p, g, part), i) {
      TurnExplains(list, groups, part, p, g, i);
    }
    forall i, j | 0 <= i < |list| && 0 <= j < |list| && Together(list, groups + [g], part, i, j)
      ensures Turn(p, g, part).list[i].full == Turn(p, g, part).list[j].full
    {
      TurnUniform(list, groups, part, p, g, i, j);
    }
  }

  lemma {:induction false} TurnsMeaning(list: seq<Conn>, groups: seq<Group>, part: Sum -> Sum)
    ensures Meaning(list, groups, part, Turns(list, groups, part))
    decreases |groups|
  {
    if groups != [] {
      var before, g := groups[..|groups| - 1], groups[|groups| - 1];
      assert groups == before + [g];
      TurnsMeaning(list, before, part);
      TurnMeaning(list, before, part, Turns(list, before, part), g);
    }
  }

  /** Which connections stay, whatever the order of the groups and although matches of the connection
      part rewrite checksums on the way: those whose own group is still configured, and all those for
      whose connection part some group is configured that none of the old connections follows. */
  lemma KeptIff(list: seq<Conn>, groups: seq<Group>, part: Sum -> Sum, i: nat)
    requires i < |list|
    ensures i in Turns(list, groups, part).kept
       <==> Configured(groups, list[i].full) || Reconfigured(list, groups, part(list[i].full), part)
  {
    TurnsMeaning(list, groups, part);
    assert Explained(list, groups, part, Turns(list, groups, part), i);
  }

  // ----- the groups to add

  ghost predicate Unmatched(list: seq<Conn>, g: Group, part: Sum -> Sum) {
    forall i :: 0 <= i < |list| ==> part(list[i].full) != part(g.full)
  }

  ghost function NewGroups(list: seq<Conn>, groups: seq<Group>, part: Sum -> Sum): seq<Group> {
    if groups == [] then []
    else
      var n := |groups| - 1;
      NewGroups(list, groups[..n], part) + (if Unmatched(list, groups[n], part) then [groups[n]] else [])
  }

  /** A group is added exactly when no running connection has its connection part. */
  lemma {:induction false} AddedAreNew(list: seq<Conn>, groups: seq<Group>, part: Sum -> Sum)
    ensures Turns(list, groups, part).add == NewGroups(list, groups, part)
    decreases |groups|
  {
    if groups != [] {
      var n := |groups| - 1;
      AddedAreNew(list, groups[..n], part);
      TurnsMeaning(list, groups[..n], part);
      var p, g := Turns(list, groups[..n], part), groups[n];
      UnmatchedInLoop(list, groups[..n], part, p, g);
    }
  }

  lemma UnmatchedInLoop(list: seq<Conn>, groups: seq<Group>, part: Sum -> Sum, p: Pass, g: Group)
    requires Meaning(list, groups, part, p)
    ensures Unmatched(list, g, part) <==> SameFull(p.list, g) == {} && SamePart(p.list, g, part) == {}
  {
    if Unmatched(list, g, part) {
      forall i: nat ensures i !in SamePart(p.list, g, part) && i !in SameFull(p.list, g) {
        if i < |list| { assert Explained(list, groups, part, p, i); }
      }
    }
    if SamePart(p.list, g, part) == {} {
      forall i | 0 <= i < |list| ensures part(list[i].full) != part(g.full) {
        assert Explained(list, groups, part, p, i);
        assert i !in SamePart(p.list, g, part);
      }
    }
  }

  // ----- the new list

  /** The kept connections among the first `n`, in order. */
  function KeptConns(p: Pass, n: nat): seq<Conn>
    requires n <= |p.list|
  {
    if n == 0 then [] else KeptConns(p, n - 1) + (if n - 1 in p.kept then [p.list[n - 1]] else [])
  }

  function Instances(g: Group, uid: nat): (r: seq<Conn>)
    ensures |r| == g.instances && forall i :: 0 <= i < |r| ==> r[i] == Conn(uid + i, g.full, g.id)
  {
    seq(g.instances, i requires 0 <= i < g.instances => Conn(uid + i, g.full, g.id))
  }

  function Started(add: seq<Group>, uid: nat): seq<Conn>
    decreases |add|
  {
    if add == [] then [] else Instances(add[0], uid) + Started(add[1..], uid + add[0].instances)
  }

  /** smsc2_graceful_restart: the kept connections, then the instances of the added groups. */
  function Restarted(list: seq<Conn>, groups: seq<Group>, part: Sum -> Sum, uid: nat): seq<Conn> {
    var p := Turns(list, groups, part);
    assert |p.list| == |list| by { TurnsMeaning(list, groups, part); }
    KeptConns(p, |p.list|) + Started(p.add, uid)
  }

  lemma {:induction false} KeptMember(p: Pass, n: nat, c: Conn)
    requires n <= |p.list|
    ensures c in KeptConns(p, n) <==> exists i :: 0 <= i < n && i in p.kept && p.list[i] == c
  {
    if n > 0 { KeptMember(p, n - 1, c); }
  }

  lemma {:induction false} StartedMember(add: seq<Group>, uid: nat, c: Conn)
    requires c in Started(add, uid)
    ensures exists g :: g in add && g.full == c.full && g.instances > 0
    decreases |add|
  {
    if add != [] {
      if c in Instances(add[0], uid) {
        assert add[0] in add;
      } else {
        StartedMember(add[1..], uid + add[0].instances, c);
      }
    }
  }

  lemma {:induction false} StartedHas(add: seq<Group>, uid: nat, g: Group) returns (c: Conn)
    requires g in add && g.instances > 0
    ensures c in Started(add, uid) && c.full == g.full
    decreases |add|
  {
    if add[0] == g {
      c := Instances(g, uid)[0];
    } else {
      c := StartedHas(add[1..], uid + add[0].instances, g);
    }
  }

  lemma {:induction false} NewGroupsMember(list: seq<Conn>, groups: seq<Group>, part: Sum -> Sum, g: Group)
    ensures g in NewGroups(list, groups, part) <==> g in groups && Unmatched(list, g, part)
    decreases |groups|
  {
    if groups != [] {
      var n := |groups| - 1;
      NewGroupsMember(list, groups[..n], part, g);
      assert groups == groups[..n] + [groups[n]];
    }
  }

  // ----- after a restart

  /** After a restart every connection follows some configured group. */
  lemma RestartedCovered(list: seq<Conn>, groups: seq<Group>, part: Sum -> Sum, uid: nat, c: Conn)
    requires c in Restarted(list, groups, part, uid)
    ensures Configured(groups, c.full)
  {
    var p := Turns(list, groups, part);
    TurnsMeaning(list, groups, part);
    KeptMember(p, |p.list|, c);
    if c in KeptConns(p, |p.list|) {
      var i :| 0 <= i < |p.list| && i in p.kept && p.list[i] == c;
      assert Explained(list, groups, part, p, i);
    } else {
      StartedMember(p.add, uid, c);
      var g :| g in p.add && g.full == c.full && g.instances > 0;
      AddedAreNew(list, groups, part);
      NewGroupsMember(list, groups, part, g);
      var m :| 0 <= m < |groups| && groups[m] == g;
    }
  }

  /** After a restart every group with instances has a connection with its connection part. */
  lemma RestartedServes(list: seq<Conn>, groups: seq<Group>, part: Sum -> Sum, uid: nat, g: Group)
    requires g in groups && g.instances > 0
    ensures !Unmatched(Restarted(list, groups, part, uid), g, part)
  {
    var p := Turns(list, groups, part);
    var r := Restarted(list, groups, part, uid);
    TurnsMeaning(list, groups, part);
    AddedAreNew(list, groups, part);
    NewGroupsMember(list, groups, part, g);
    if Unmatched(list, g, part) {
      var c := StartedHas(p.add, uid, g);
      assert c in r;
    } else {
      var i := KeptForPart(list, groups, part, g);
      KeptMember(p, |p.list|, p.list[i]);
      assert Explained(list, groups, part, p, i);
      assert p.list[i] in r;
    }
  }

  lemma KeptForPart(list: seq<Conn>, groups: seq<Group>, part: Sum -> Sum, g: Group) returns (i: nat)
    requires g in groups && !Unmatched(list, g, part)
    ensures i < |list| && i in Turns(list, groups, part).kept && part(list[i].full) == part(g.full)
  {
    var m :| 0 <= m < |groups| && groups[m] == g;
    if Follows(list, g.full) {
      var j :| 0 <= j < |list| && list[j].full == g.full;
      i := j;
    } else {
      var j :| 0 <= j < |list| && part(list[j].full) == part(g.full);
      i := j;
    }
    KeptIff(list, groups, part, i);
  }

  function Uids(list: seq<Conn>): (r: seq<nat>)
    ensures |r| == |list| && forall i :: 0 <= i < |list| ==> r[i] == list[i].uid
  {
    seq(|list|, i requires 0 <= i < |list| => list[i].uid)
  }

  lemma {:induction false} AllKept(p: Pass, n: nat)
    requires n <= |p.list| && forall i :: 0 <= i < n ==> i in p.kept
    ensures KeptConns(p, n) == p.list[..n]
  {
    if n > 0 { AllKept(p, n - 1); }
  }

  lemma {:induction false} NothingStarted(add: seq<Group>, uid: nat)
    requires forall g :: g in add ==> g.instances == 0
    ensures Started(add, uid) == []
    decreases |add|
  {
    if add != [] { NothingStarted(add[1..], uid + add[0].instances); }
  }

  // ----- whose routing is in force

  ghost predicate OneGroup(groups: seq<Group>, k: Sum, part: Sum -> Sum) {
    forall i, j :: 0 <= i < |groups| && 0 <= j < |groups| && part(groups[i].full) == k == part(groups[j].full) ==>
      groups[i].full == groups[j].full
  }

  ghost predicate AllInForce(list: seq<Conn>, groups: seq<Group>, k: Sum, part: Sum -> Sum) {
    forall j :: 0 <= j < |groups| && part(groups[j].full) == k ==> Follows(list, groups[j].full)
  }

  /** The last of the groups with this connection part. */
  ghost predicate LastWith(groups: seq<Group>, k: Sum, part: Sum -> Sum, m: nat) {
    m < |groups| && part(groups[m].full) == k && forall j :: m < j < |groups| ==> part(groups[j].full) != k
  }

  /** Once some group of a connection part had to be applied anew, all connections with that part end up
      with the routing of the last configured group that has it. */
  lemma {:induction false} LastInForce(list: seq<Conn>, groups: seq<Group>, part: Sum -> Sum, i: nat, m: nat)
    requires i < |list| && Reconfigured(list, groups, part(list[i].full), part)
    requires LastWith(groups, part(list[i].full), part, m)
    ensures |Turns(list, groups, part).list| == |list| && Turns(list, groups, part).list[i].full == groups[m].full
    decreases |groups|
  {
    var n, k := |groups| - 1, part(list[i].full);
    var before, g := groups[..n], groups[n];
    TurnsMeaning(list, before, part);
    ReconfiguredAppend(list, before, g, k, part);
    assert before + [g] == groups;
    assert Explained(list, before, part, Turns(list, before, part), i);
    if m == n {
      LastApplied(list, before, part, Turns(list, before, part), g, i);
    } else {
      assert LastWith(before, k, part, m);
      LastInForce(list, before, part, i, m);
    }
  }

  lemma LastApplied(list: seq<Conn>, groups: seq<Group>, part: Sum -> Sum, p: Pass, g: Group, i: nat)
    requires Meaning(list, groups, part, p) && i < |list| && part(list[i].full) == part(g.full)
    requires Reconfigured(list, groups, part(g.full), part) || !Follows(list, g.full)
    ensures Turn(p, g, part).list[i].full == g.full
  {
    assert Explained(list, groups, part, p, i);
    assert i in SamePart(p.list, g, part);
    if SameFull(p.list, g) != {} {
      var j :| j in SameFull(p.list, g);
      assert Explained(list, groups, part, p, j);
      if Reconfigured(list, groups, part(g.full), part) {
        assert Together(list, groups, part, i, j);
      } else {
        FollowedWhenUntouched(list, groups, part, p, g);
      }
    }
  }

  /** Among groups that share a connection part with running connections, each one is in force on some
      connection after the restart exactly when none had to be applied anew or there is only one of them. */
  lemma InForceIff(list: seq<Conn>, groups: seq<Group>, part: Sum -> Sum, c: nat)
    requires c < |list|
    ensures var k, p := part(list[c].full), Turns(list, groups, part);
            (AllInForce(p.list, groups, k, part) <==> !Reconfigured(list, groups, k, part) || OneGroup(groups, k, part))
  {
    var k, p := part(list[c].full), Turns(list, groups, part);
    TurnsMeaning(list, groups, part);
    assert Explained(list, groups, part, p, c);
    if !Reconfigured(list, groups, k, part) {
      forall j | 0 <= j < |groups| && part(groups[j].full) == k ensures Follows(p.list, groups[j].full) {
        var i :| 0 <= i < |list| && list[i].full == groups[j].full;
        assert Explained(list, groups, part, p, i);
      }
    } else if OneGroup(groups, k, part) {
      var m :| 0 <= m < |groups| && groups[m].full == p.list[c].full;
    } else {
      var i, j :| 0 <= i < |groups| && 0 <= j < |groups| && part(groups[i].full) == k == part(groups[j].full)
                  && groups[i].full != groups[j].full;
      if Follows(p.list, groups[i].full) && Follows(p.list, groups[j].full) {
        var a :| 0 <= a < |list| && p.list[a].full == groups[i].full;
        var b :| 0 <= b < |list| && p.list[b].full == groups[j].full;
        assert Explained(list, groups, part, p, a) && Explained(list, groups, part, p, b);
        assert Together(list, groups, part, a, b);
        assert false;
      }
    }
  }

  // ----- a second restart

  ghost predicate SameInstances(groups: seq<Group>, part: Sum -> Sum) {
    forall g, h :: g in groups && h in groups && part(g.full) == part(h.full) ==> g.instances == h.instances
  }

  lemma {:induction false} LastExists(groups: seq<Group>, k: Sum, part: Sum -> Sum, j: nat) returns (m: nat)
    requires j < |groups| && part(groups[j].full) == k
    ensures LastWith(groups, k, part, m)
    decreases |groups| - j
  {
    if n :| j < n < |groups| && part(groups[n].full) == k {
      m := LastExists(groups, k, part, n);
    } else {
      m := j;
    }
  }

  /** A group with running connections that none had to be moved to keeps those that follow it. */
  lemma FollowedAfter(list: seq<Conn>, groups: seq<Group>, part: Sum -> Sum, uid: nat, g: Group)
    requires g in groups && Follows(list, g.full) && !Reconfigured(list, groups, part(g.full), part)
    ensures Follows(Restarted(list, groups, part, uid), g.full)
  {
    var p, once := Turns(list, groups, part), Restarted(list, groups, part, uid);
    TurnsMeaning(list, groups, part);
    var b :| 0 <= b < |list| && list[b].full == g.full;
    var j :| 0 <= j < |groups| && groups[j] == g;
    KeptIff(list, groups, part, b);
    assert Explained(list, groups, part, p, b);
    KeptMember(p, |p.list|, p.list[b]);
    assert p.list[b] in once;
    var i :| 0 <= i < |once| && once[i] == p.list[b];
  }

  lemma FollowedWhenStarted(list: seq<Conn>, groups: seq<Group>, part: Sum -> Sum, uid: nat, g: Group)
    requires g in groups && Unmatched(list, g, part) && g.instances > 0
    ensures Follows(Restarted(list, groups, part, uid), g.full)
  {
    var p, once := Turns(list, groups, part), Restarted(list, groups, part, uid);
    AddedAreNew(list, groups, part);
    NewGroupsMember(list, groups, part, g);
    var c := StartedHas(p.add, uid, g);
    assert c in once;
    var i :| 0 <= i < |once| && once[i] == c;
  }

  /** A connection in the list after a restart whose part is reconfigured by the next one came out of the
      first restart following the last group of its part. */
  lemma FollowsLast(list: seq<Conn>, groups: seq<Group>, part: Sum -> Sum, uid: nat, c: Conn, m: nat)
    requires SameInstances(groups, part) && c in Restarted(list, groups, part, uid)
    requires Reconfigured(Restarted(list, groups, part, uid), groups, part(c.full), part)
    requires LastWith(groups, part(c.full), part, m)
    ensures c.full == groups[m].full
  {
    var p, once, k := Turns(list, groups, part), Restarted(list, groups, part, uid), part(c.full);
    var j :| 0 <= j < |groups| && part(groups[j].full) == k && !Follows(once, groups[j].full);
    TurnsMeaning(list, groups, part);
    KeptMember(p, |p.list|, c);
    if c in KeptConns(p, |p.list|) {
      var a :| 0 <= a < |p.list| && a in p.kept && p.list[a] == c;
      assert Explained(list, groups, part, p, a);
      if Reconfigured(list, groups, k, part) {
        LastInForce(list, groups, part, a, m);
      } else {
        FollowedAfter(list, groups, part, uid, groups[j]);
      }
    } else {
      StartedMember(p.add, uid, c);
      var g :| g in p.add && g.full == c.full && g.instances > 0;
      AddedAreNew(list, groups, part);
      NewGroupsMember(list, groups, part, g);
      FollowedWhenStarted(list, groups, part, uid, groups[j]);
    }
  }

  lemma RoutingStays(list: seq<Conn>, groups: seq<Group>, part: Sum -> Sum, uid: nat, i: nat)
    requires SameInstances(groups, part) && i < |Restarted(list, groups, part, uid)|
    ensures var once := Restarted(list, groups, part, uid);
            var p := Turns(once, groups, part);
            |p.list| == |once| && p.list[i].full == once[i].full
  {
    var once := Restarted(list, groups, part, uid);
    var k := part(once[i].full);
    TurnsMeaning(once, groups, part);
    assert Explained(once, groups, part, Turns(once, groups, part), i);
    if Reconfigured(once, groups, k, part) {
      var j :| 0 <= j < |groups| && part(groups[j].full) == k && !Follows(once, groups[j].full);
      var m := LastExists(groups, k, part, j);
      LastInForce(once, groups, part, i, m);
      FollowsLast(list, groups, part, uid, once[i], m);
    }
  }

  /** Restarting again with the same configuration adds and removes nothing; with that of the code, which
      counts `instances` into both checksums, it changes nothing at all. */
  lemma RestartTwice(list: seq<Conn>, groups: seq<Group>, part: Sum -> Sum, uid: nat, uid2: nat)
    ensures var once := Restarted(list, groups, part, uid);
            && Uids(Restarted(once, groups, part, uid2)) == Uids(once)
            && (SameInstances(groups, part) ==> Restarted(once, groups, part, uid2) == once)
  {
    var once := Restarted(list, groups, part, uid);
    var p := Turns(once, groups, part);
    TurnsMeaning(once, groups, part);
    forall i | 0 <= i < |once| ensures i in p.kept && p.list[i].uid == once[i].uid {
      RestartedCovered(list, groups, part, uid, once[i]);
      KeptIff(once, groups, part, i);
      assert Explained(once, groups, part, p, i);
    }
    forall i | 0 <= i < |once| && SameInstances(groups, part) ensures p.list[i] == once[i] {
      RoutingStays(list, groups, part, uid, i);
      assert Explained(once, groups, part, p, i);
    }
    AllKept(p, |p.list|);
    AddedAreNew(once, groups, part);
    forall g | g in p.add ensures g.instances == 0 {
      NewGroupsMember(once, groups, part, g);
      if g.instances > 0 { RestartedServes(list, groups, part, uid, g); }
    }
    NothingStarted(p.add, uid2);
    assert p.list[..|p.list|] + [] == p.list;
  }

  /** Two new routings for one running connection: the first is not in force afterwards. */
  lemma RoutingLost(c: Conn, first: Group, second: Group, part: Sum -> Sum)
    requires part(c.full) == part(first.full) == part(second.full)
    requires c.full != first.full && first.full != second.full && c.full != second.full
    ensures var p := Turns([c], [first, second], part);
            |p.list| == 1 && p.list[0].full == second.full && !AllInForce(p.list, [first, second], part(c.full), part)
  {
    var list, groups, k := [c], [first, second], part(c.full);
    assert groups[0] == first && groups[1] == second;
    assert !Follows(list, groups[0].full);
    assert Reconfigured(list, groups, k, part);
    assert !OneGroup(groups, k, part);
    LastInForce(list, groups, part, 0, 1);
    InForceIff(list, groups, part, 0);
  }

  // ----- the third check, as written and as its comment describes it

  /** Positions of connections that share their smsc-id with a group. */
  function SameId(list: seq<Conn>, g: Group): set<nat> {
    set i: nat | i < |list| && g.id.Some? && list[i].id == g.id
  }

  /** Positions of connections that share their smsc-id with one of several groups. */
  function Sharing(list: seq<Conn>, groups: seq<Group>): set<nat> {
    if groups == [] then {} else Sharing(list, groups[..|groups| - 1]) + SameId(list, groups[|groups| - 1])
  }

  lemma {:induction false} SharingIff(list: seq<Conn>, groups: seq<Group>, i: nat)
    ensures i in Sharing(list, groups)
       <==> i < |list| && list[i].id.Some? && exists g :: g in groups && g.id == list[i].id
    decreases |groups|
  {
    if groups != [] {
      SharingIff(list, groups[..|groups| - 1], i);
      assert groups == groups[..|groups| - 1] + [groups[|groups| - 1]];
    }
  }

  /** The comment wants the connections that share the smsc-id of an added group removed. The test as
      written marks only what is marked already, so nothing. */
  function Marked(list: seq<Conn>, add: seq<Group>, asWritten: bool): set<nat> {
    if asWritten then {} else Sharing(list, add)
  }

  function RestartedBy(list: seq<Conn>, groups: seq<Group>, part: Sum -> Sum, uid: nat, asWritten: bool): seq<Conn> {
    var p := Turns(list, groups, part);
    assert |p.list| == |list| by { TurnsMeaning(list, groups, part); }
    KeptConns(p.(kept := p.kept - Marked(list, p.add, asWritten)), |p.list|) + Started(p.add, uid)
  }

  lemma AsWritten(list: seq<Conn>, groups: seq<Group>, part: Sum -> Sum, uid: nat)
    ensures RestartedBy(list, groups, part, uid, true) == Restarted(list, groups, part, uid)
  {
    var p := Turns(list, groups, part);
    assert p.kept - {} == p.kept;
  }

  lemma {:induction false} KeptFewer(p: Pass, less: set<nat>, n: nat)
    requires n <= |p.list|
    ensures var rest := KeptConns(p.(kept := p.kept - less), n);
            && |rest| <= |KeptConns(p, n)|
            && (|rest| == |KeptConns(p, n)| <==> rest == KeptConns(p, n))
            && (rest == KeptConns(p, n) <==> forall i :: 0 <= i < n && i in p.kept ==> i !in less)
  {
    if n > 0 { KeptFewer(p, less, n - 1); }
  }

  /** A connection that stays shares its smsc-id with a group that no connection matches. */
  ghost predicate Clash(list: seq<Conn>, groups: seq<Group>, part: Sum -> Sum, i: nat, g: Group) {
    && i < |list| && g in groups && Unmatched(list, g, part) && g.id.Some? && list[i].id == g.id
    && (Configured(groups, list[i].full) || Reconfigured(list, groups, part(list[i].full), part))
  }

  lemma ClashIff(list: seq<Conn>, groups: seq<Group>, part: Sum -> Sum, i: nat)
    ensures var p := Turns(list, groups, part);
            (i < |list| && i in p.kept && i in Sharing(list, p.add) <==> exists g :: Clash(list, groups, part, i, g))
  {
    var p := Turns(list, groups, part);
    AddedAreNew(list, groups, part);
    SharingIff(list, p.add, i);
    if i < |list| { KeptIff(list, groups, part, i); }
    if g :| Clash(list, groups, part, i, g) { NewGroupsMember(list, groups, part, g); }
    if i < |list| && i in p.kept && i in Sharing(list, p.add) {
      var g :| g in p.add && g.id == list[i].id;
      NewGroupsMember(list, groups, part, g);
      assert Clash(list, groups, part, i, g);
    }
  }

  /** The two restarts give the same connections exactly when no connection that stays shares its smsc-id
      with a group that no connection matches. */
  lemma InvertedTestIff(list: seq<Conn>, groups: seq<Group>, part: Sum -> Sum, uid: nat)
    ensures RestartedBy(list, groups, part, uid, false) == Restarted(list, groups, part, uid)
       <==> forall i: nat, g :: !Clash(list, groups, part, i, g)
  {
    var p := Turns(list, groups, part);
    TurnsMeaning(list, groups, part);
    KeptDisjointIff(list, groups, part, uid);
    if p.kept !! Sharing(list, p.add) {
      forall i: nat, g ensures !Clash(list, groups, part, i, g) { ClashIff(list, groups, part, i); }
    } else {
      var i :| i in p.kept && i in Sharing(list, p.add);
      ClashIff(list, groups, part, i);
      var g :| Clash(list, groups, part, i, g);
    }
  }

  lemma KeptDisjointIff(list: seq<Conn>, groups: seq<Group>, part: Sum -> Sum, uid: nat)
    ensures var p := Turns(list, groups, part);
            (RestartedBy(list, groups, part, uid, false) == Restarted(list, groups, part, uid)
             <==> p.kept !! Sharing(list, p.add))
  {
    var p := Turns(list, groups, part);
    TurnsMeaning(list, groups, part);
    var less, n, tail := Sharing(list, p.add), |p.list|, Started(p.add, uid);
    var rest := KeptConns(p.(kept := p.kept - less), n);
    KeptFewer(p, less, n);
    CancelTail(rest, KeptConns(p, n), tail);
    assert RestartedBy(list, groups, part, uid, false) == rest + tail;
    assert Restarted(list, groups, part, uid) == KeptConns(p, n) + tail;
    assert p.kept !! less <==> forall i :: 0 <= i < n && i in p.kept ==> i !in less;
  }

  lemma CancelTail(a: seq<Conn>, b: seq<Conn>, tail: seq<Conn>)
    ensures a + tail == b + tail <==> a == b
  {
    if a + tail == b + tail {
      assert |a| == |b|;
      assert a == (a + tail)[..|a|] && b == (b + tail)[..|b|];
    }
  }

  /** An unchanged group and a new one with the same smsc-id: as written both run, by the comment only
      the new one would. */
  lemma SameIdKept(c: Conn, old': Group, new': Group, part: Sum -> Sum, uid: nat)
    requires c.full == old'.full && part(new'.full) != part(c.full)
    requires c.id.Some? && new'.id == c.id && new'.instances == 1
    ensures Restarted([c], [old', new'], part, uid) == [c, Conn(uid, new'.full, new'.id)]
    ensures RestartedBy([c], [old', new'], part, uid, false) == [Conn(uid, new'.full, new'.id)]
  {
    var list, groups := [c], [old', new'];
    assert groups[..1] == [old'] && [old'][..0] == [];
    assert 0 in SameFull(list, old') && SameFull(list, old') == {0};
    var p1 := Turns(list, [old'], part);
    assert Turns(list, [], part) == Pass(list, {}, []);
    assert p1 == Turn(Pass(list, {}, []), old', part);
    assert {} + {0} == {0};
    assert SameFull(list, new') == {} && SamePart(list, new', part) == {};
    var p := Turns(list, groups, part);
    assert p == Pass(list, {0}, [new']);
    assert Started([new'], uid) == Instances(new', uid) + Started([], uid + 1);
    assert Instances(new', uid) == [Conn(uid, new'.full, new'.id)];
    assert Sharing(list, [new']) == Sharing(list, []) + SameId(list, new') by { assert [new'][..0] == []; }
    assert 0 in SameId(list, new');
    assert KeptConns(p, 1) == [c] && KeptConns(p.(kept := p.kept - Sharing(list, p.add)), 1) == [];
  }

  // ----- the loops

  /** smsc2_graceful_restart, with the test of the third check as written or as meant. */
  method GracefulRestart(smscs: seq<Conn>, groups: seq<Group>, part: Sum -> Sum, uid: nat, asWritten: bool)
      returns (list: seq<Conn>)
    ensures list == RestartedBy(smscs, groups, part, uid, asWritten)
    ensures asWritten ==> list == Restarted(smscs, groups, part, uid)
  {
    TurnsMeaning(smscs, groups, part);
    AsWritten(smscs, groups, part, uid);
    var p, remove := MatchGroups(smscs, groups, part, asWritten);
    var left := DropUnkept(p, remove);
    var started := StartAll(p.add, uid);
    list := left + started;
  }

  /** The loop over the groups. */
  method MatchGroups(smscs: seq<Conn>, groups: seq<Group>, part: Sum -> Sum, asWritten: bool)
      returns (p: Pass, remove: set<nat>)
    ensures p == Turns(smscs, groups, part) && remove == Marked(smscs, p.add, asWritten)
  {
    p, remove := Pass(smscs, {}, []), {};
    for i := 0 to |groups|
      invariant p == Turns(smscs, groups[..i], part) && remove == Marked(smscs, p.add, asWritten)
    {
      var g := groups[i];
      assert groups[..i + 1][..i] == groups[..i];
      var same := SameFull(p.list, g);
      if same != {} {
        p := p.(kept := p.kept + same);
      } else {
        var near := SamePart(p.list, g, part);
        if near != {} {
          p := Pass(Rewritten(p.list, near, g.full), p.kept + near, p.add);
        } else {
          SameIds(smscs, groups[..i], part, g);
          remove := MarkSameId(p.list, g, remove, asWritten);
          assert (p.add + [g])[..|p.add|] == p.add;
          p := p.(add := p.add + [g]);
        }
      }
    }
    assert groups[..|groups|] == groups;
  }

  lemma SameIds(list: seq<Conn>, groups: seq<Group>, part: Sum -> Sum, g: Group)
    ensures SameId(Turns(list, groups, part).list, g) == SameId(list, g)
  {
    TurnsMeaning(list, groups, part);
    forall i: nat ensures i in SameId(Turns(list, groups, part).list, g) <==> i in SameId(list, g) {
      if i < |list| { assert Explained(list, groups, part, Turns(list, groups, part), i); }
    }
  }

  /** The inner loop of the third check. */
  method MarkSameId(list: seq<Conn>, g: Group, before: set<nat>, asWritten: bool) returns (remove: set<nat>)
    ensures remove == if asWritten then before else before + SameId(list, g)
  {
    remove := before;
    for i := 0 to |list|
      invariant asWritten ==> remove == before
      invariant !asWritten ==> remove == before + set k | k in SameId(list, g) && k < i
    {
      if i in SameId(list, g) && (i in remove) == asWritten {
        remove := remove + {i};
      }
    }
  }

  /** Collecting the other connections to remove, and deleting them all. */
  method DropUnkept(p: Pass, marked: set<nat>) returns (left: seq<Conn>)
    ensures left == KeptConns(p.(kept := p.kept - marked), |p.list|)
  {
    var remove := marked;
    for i := 0 to |p.list|
      invariant forall k :: k in remove <==> k in marked || (0 <= k < i && k !in p.kept)
    {
      if i !in remove && i !in p.kept {
        remove := remove + {i};
      }
    }
    left := [];
    for i := 0 to |p.list|
      invariant left == KeptConns(p.(kept := p.kept - marked), i)
    {
      if i !in remove { left := left + [p.list[i]]; }
    }
  }

  method StartAll(add: seq<Group>, first: nat) returns (r: seq<Conn>)
    ensures r == Started(add, first)
  {
    r := [];
    var uid: nat := first;
    assert add[0..] == add;
    for a := 0 to |add|
      invariant r + Started(add[a..], uid) == Started(add, first)
    {
      assert add[a..][1..] == add[a + 1..];
      StartedStep(r, add[a..], uid);
      ghost var before := r;
      for i := 0 to add[a].instances
        invariant r == before + Instances(add[a], uid)[..i]
      {
        r := r + [Conn(uid + i, add[a].full, add[a].id)];
      }
      assert Instances(add[a], uid)[..add[a].instances] == Instances(add[a], uid);
      uid := uid + add[a].instances;
    }
    assert r + [] == r;
  }

  lemma StartedStep(r: seq<Conn>, add: seq<Group>, uid: nat)
    requires add != []
    ensures r + Started(add, uid) == r + Instances(add[0], uid) + Started(add[1..], uid + add[0].instances)
  {
  }
}
