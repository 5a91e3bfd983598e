/** The number hash: nodes taken from an array, chained per bucket (gw/numhash.c). */
module NumHash {
  import opened Octets

  const NUMHASH_AUTO_HASH := -1

  const PRIMES: seq<int> := [
    101, 503, 1009, 2003, 3001, 5003, 7001,
    10007, 20011, 30011, 40009, 50021, 60013, 70001, 80021, 90001,
    100003, 150001, 200003, 300007, 400009, 500009, 600011, 700001,
    800011, 900001, 1000003, 1100009, 1200007, 1300021, 1400017, 1500007,
    1600033, 1700021, 1800017, 1900009, 2000003, 3000017, 4000037, 5000111,
    6000101, 7000127, 8000051, -1]

  // ----- the table as key lists

  /** `total` counts the nodes taken; a bucket lists its linked keys in chain order. */
  datatype Table = Table(capacity: nat, total: nat, buckets: seq<seq<int>>)

  predicate Distinct(ks: seq<int>) { forall i, j :: 0 <= i < j < |ks| ==> ks[i] != ks[j] }

  /** Every key sits in its own bucket, and no bucket holds a key twice. */
  predicate GoodBucket(ks: seq<int>, b: nat, size: nat)
    requires size > 0
  {
    Distinct(ks) && forall i :: 0 <= i < |ks| ==> ks[i] >= 0 && ks[i] % size == b
  }

  predicate Good(t: Table) {
    && t.total <= t.capacity && |t.buckets| > 0
    && forall b :: 0 <= b < |t.buckets| ==> GoodBucket(t.buckets[b], b, |t.buckets|)
  }

  predicate Contains(t: Table, key: nat)
    requires |t.buckets| > 0
  {
    key in t.buckets[key % |t.buckets|]
  }

  function Insert(t: Table, key: nat): Table
    requires |t.buckets| > 0
  {
    var b := key % |t.buckets|;
    if t.total == t.capacity then t
    else if key in t.buckets[b] then t.(total := t.total + 1)
    else t.(total := t.total + 1, buckets := t.buckets[b := t.buckets[b] + [key]])
  }

  function InsertAll(t: Table, keys: seq<nat>): (r: Table)
    requires |t.buckets| > 0
    ensures |r.buckets| == |t.buckets|
  {
    if keys == [] then t else Insert(InsertAll(t, keys[..|keys| - 1]), keys[|keys| - 1])
  }

  function Empty(capacity: nat, size: nat): Table { Table(capacity, 0, seq(size, _ => [])) }

  /** The keys that found room. */
  function Accepted(capacity: nat, keys: seq<nat>): seq<nat> { if |keys| <= capacity then keys else keys[..capacity] }

  lemma InsertKeepsGood(t: Table, key: nat)
    requires Good(t)
    ensures Good(Insert(t, key))
  {
  }

  lemma InsertAdds(t: Table, key: nat, probe: nat)
    requires Good(t)
    ensures Contains(Insert(t, key), probe) <==> Contains(t, probe) || (probe == key && t.total < t.capacity)
  {
    var b := key % |t.buckets|;
    if t.total < t.capacity && key !in t.buckets[b] {
      assert (t.buckets[b] + [key])[|t.buckets[b]|] == key;
    }
  }

  /** A number inserted twice is found as before but has used up two nodes. */
  lemma DuplicateUsesNode(capacity: nat, size: nat, key: nat)
    requires size > 0 && capacity >= 2
    ensures var once, twice := InsertAll(Empty(capacity, size), [key]), InsertAll(Empty(capacity, size), [key, key]);
            twice.buckets == once.buckets && twice.total == 2 == once.total + 1
  {
    assert [key][..0] == [] && [key, key][..1] == [key];
    InsertKeepsGood(Empty(capacity, size), key);
    InsertAdds(Empty(capacity, size), key, key);
  }

  /** After any insertions a key is found exactly when it was inserted and found room;
      each bucket holds its own keys and none twice. */
  lemma {:induction false} FoundIffInserted(capacity: nat, size: nat, keys: seq<nat>, probe: nat)
    requires size > 0
    ensures var t := InsertAll(Empty(capacity, size), keys);
            && Good(t) && t.capacity == capacity
            && t.total == |Accepted(capacity, keys)|
            && (Contains(t, probe) <==> probe in Accepted(capacity, keys))
    decreases |keys|
  {
    if keys != [] {
      var n := |keys| - 1;
      var before := InsertAll(Empty(capacity, size), keys[..n]);
      FoundIffInserted(capacity, size, keys[..n], probe);
      InsertKeepsGood(before, keys[n]);
      InsertAdds(before, keys[n], probe);
      AcceptedStep(capacity, keys, n);
    }
  }

  lemma AcceptedStep(capacity: nat, keys: seq<nat>, n: nat)
    requires |keys| == n + 1
    ensures Accepted(capacity, keys) == Accepted(capacity, keys[..n]) + if n < capacity then [keys[n]] else []
  {
  }

  // ----- the linked nodes

  const NULL := -1

  function At(chain: seq<nat>, j: nat): int { if j < |chain| then chain[j] else NULL }

  /** Walking from `head` along `next` visits the nodes of `chain`, which hold `ks`, and stops. */
  predicate Walk(key: seq<int>, next: seq<int>, limit: nat, head: int, chain: seq<nat>, ks: seq<int>)
    requires limit <= |key| == |next|
  {
    && |chain| == |ks| && head == At(chain, 0)
    && forall j :: 0 <= j < |chain| ==> chain[j] < limit && key[chain[j]] == ks[j] && next[chain[j]] == At(chain, j + 1)
  }

  /** A walk that avoids a node is not changed by writing to it. */
  lemma WalkElsewhere(key: seq<int>, next: seq<int>, limit: nat, head: int, chain: seq<nat>, ks: seq<int>, n: nat,
                      link: int)
    requires limit <= |key| == |next| && n < |next|
    requires Walk(key, next, limit, head, chain, ks)
    requires n >= limit || key[n] !in ks
    ensures Walk(key, next[n := link], limit, head, chain, ks)
  {
    assert forall j :: 0 <= j < |chain| ==> key[chain[j]] in ks;
  }

  /** Linking a new node behind the last one lengthens the walk by it. */
  lemma WalkLonger(key: seq<int>, next: seq<int>, limit: nat, head: int, chain: seq<nat>, ks: seq<int>, nro: nat)
    requires limit <= nro < |key| == |next|
    requires chain != [] && Distinct(ks) && Walk(key, next, limit, head, chain, ks) && next[nro] == NULL
    ensures Walk(key, next[chain[|chain| - 1] := nro], nro + 1, head, chain + [nro], ks + [key[nro]])
  {
    var m := |chain| - 1;
    var next', chain', ks' := next[chain[m] := nro], chain + [nro], ks + [key[nro]];
    forall j | 0 <= j < |chain'|
      ensures chain'[j] < nro + 1 && key[chain'[j]] == ks'[j] && next'[chain'[j]] == At(chain', j + 1)
    {
      if j < m { assert ks[j] != ks[m]; }
    }
  }

  /** Every bucket's walk. */
  predicate AllWalk(key: seq<int>, next: seq<int>, hash: seq<int>, limit: nat, chains: seq<seq<nat>>,
                    buckets: seq<seq<int>>)
    requires limit <= |key| == |next| && |hash| == |chains| == |buckets|
  {
    forall b :: 0 <= b < |hash| ==> Walk(key, next, limit, hash[b], chains[b], buckets[b])
  }

  lemma LinkLast(key: seq<int>, next: seq<int>, hash: seq<int>, chains: seq<seq<nat>>, t: Table, nro: nat, b: nat)
    requires nro < |key| == |next| && |hash| == |chains| == |t.buckets| && Good(t)
    requires AllWalk(key, next, hash, nro, chains, t.buckets)
    requires next[nro] == NULL && b < |hash| && chains[b] != []
    ensures chains[b][|chains[b]| - 1] < nro
    ensures AllWalk(key, next[chains[b][|chains[b]| - 1] := nro], hash, nro + 1, chains[b := chains[b] + [nro]],
                    t.buckets[b := t.buckets[b] + [key[nro]]])
  {
    var c := chains[b];
    var last := c[|c| - 1];
    WalkLonger(key, next, nro, hash[b], c, t.buckets[b], nro);
    forall b' | 0 <= b' < |hash| && b' != b
      ensures Walk(key, next[last := nro], nro + 1, hash[b'], chains[b'], t.buckets[b'])
    {
      assert key[last] == t.buckets[b][|c| - 1];
      assert key[last] !in t.buckets[b'];
      WalkElsewhere(key, next, nro, hash[b'], chains[b'], t.buckets[b'], last, nro);
    }
  }

  lemma LinkFirst(key: seq<int>, next: seq<int>, hash: seq<int>, chains: seq<seq<nat>>, t: Table, nro: nat, b: nat)
    requires nro < |key| == |next| && |hash| == |chains| == |t.buckets|
    requires AllWalk(key, next, hash, nro, chains, t.buckets)
    requires next[nro] == NULL && b < |hash| && hash[b] == NULL
    ensures AllWalk(key, next, hash[b := nro], nro + 1, chains[b := chains[b] + [nro]],
                    t.buckets[b := t.buckets[b] + [key[nro]]])
  {
  }

  lemma AppendKeepsGood(t: Table, key: nat)
    requires Good(t) && !Contains(t, key)
    ensures var b := key % |t.buckets|; Good(t.(buckets := t.buckets[b := t.buckets[b] + [key]]))
  {
  }

  class Numhash {
    const key: array<int>
    const next: array<int>
    const hash: array<int>
    var total: nat
    ghost var chains: seq<seq<nat>>
    ghost var table: Table

    /** All chains stay below `limit` and hold the keys of the table. */
    ghost predicate Linked(limit: nat)
      reads this, key, next, hash
    {
      && key != next && key != hash && next != hash
      && limit <= total <= key.Length == next.Length
      && hash.Length > 0 && |chains| == |table.buckets| == hash.Length
      && table.total == total && table.capacity == key.Length && Good(table)
      && AllWalk(key[..], next[..], hash[..], limit, chains, table.buckets)
    }

    ghost predicate Valid()
      reads this, key, next, hash
    {
      Linked(total)
    }

    constructor (capacity: nat, size: nat)
      requires size > 0
      ensures Valid() && table == Empty(capacity, size) && fresh(key) && fresh(next) && fresh(hash)
    {
      key := new int[capacity];
      next := new int[capacity];
      hash := new int[size](_ => NULL);
      total := 0;
      chains := seq(size, _ => []);
      table := Empty(capacity, size);
    }

    /** Link a node that was just taken, unless its key is there already. */
    method AddItem(nro: nat) returns (linked: bool)
      requires nro < total && Linked(nro) && key[nro] >= 0 && next[nro] == NULL
      modifies this`chains, this`table, next, hash
      ensures Valid() && linked == !Contains(old(table), key[nro])
      ensures var b := key[nro] % hash.Length;
              table == if !linked then old(table)
                       else old(table).(buckets := old(table.buckets)[b := old(table.buckets)[b] + [key[nro]]])
      ensures !linked ==> chains == old(chains)
    {
      var b := key[nro] % hash.Length;
      ghost var c, ks := chains[b], table.buckets[b];
      if hash[b] != NULL {
        assert Chained(hash[b], c, ks) by { assert Walk(key[..], next[..], nro, hash[b], c, ks); }
        var last := WalkToEnd(b, key[nro], c, ks);
        if last.None? { return false; }
        LinkLast(key[..], next[..], hash[..], chains, table, nro, b);
        next[last.value] := nro;
      } else {
        LinkFirst(key[..], next[..], hash[..], chains, table, nro, b);
        hash[b] := nro;
      }
      AppendKeepsGood(table, key[nro]);
      chains := chains[b := c + [nro]];
      table := table.(buckets := table.buckets[b := ks + [key[nro]]]);
      return true;
    }

    /** The same walk on the arrays themselves. */
    ghost predicate Chained(head: int, c: seq<nat>, ks: seq<int>)
      reads key, next
    {
      && |c| == |ks| && head == At(c, 0) && key.Length == next.Length
      && forall j :: 0 <= j < |c| ==> c[j] < key.Length && key[c[j]] == ks[j] && next[c[j]] == At(c, j + 1)
    }

    /** The last node of a non-empty chain, or none if a node on the way holds the key. */
    method WalkToEnd(b: nat, number: int, ghost c: seq<nat>, ghost ks: seq<int>) returns (last: Option<nat>)
      requires b < hash.Length && hash[b] != NULL && Chained(hash[b], c, ks)
      ensures last == if c == [] || number in ks then None else Some(c[|c| - 1])
    {
      var ptr := hash[b];
      if key[ptr] == number { assert ks[0] == number; return None; }
      ghost var j := 0;
      while next[ptr] != NULL
        invariant 0 <= j < |c| && ptr == c[j]
        invariant forall i :: 0 <= i <= j ==> ks[i] != number
        decreases |c| - j
      {
        ptr := next[ptr];
        j := j + 1;
        if key[ptr] == number { assert ks[j] == number; return None; }
      }
      return Some(ptr);
    }

    /** Take the next free node for a number. A duplicate uses up a node but is not linked. */
    method AddNumber(number: nat) returns (room: bool)
      requires Valid()
      modifies this`total, this`chains, this`table, key, next, hash
      ensures Valid() && table == Insert(old(table), number) && room == (old(total) < key.Length)
      ensures Contains(old(table), number) ==> chains == old(chains)
    {
      if total == key.Length { return false; }
      var nro := total;
      total := total + 1;
      table := table.(total := total);
      key[nro] := number;
      next[nro] := NULL;
      var linked := AddItem(nro);
      return true;
    }

    method FindKey(number: nat) returns (found: bool)
      requires Valid()
      ensures found <==> Contains(table, number)
    {
      var b := number % hash.Length;
      ghost var c, ks := chains[b], table.buckets[b];
      var ptr := hash[b];
      ghost var j := 0;
      while ptr != NULL
        invariant 0 <= j <= |c| && ptr == At(c, j)
        invariant forall i :: 0 <= i < j ==> ks[i] != number
        decreases |c| - j
      {
        if key[ptr] == number { assert ks[j] == number; return true; }
        ptr := next[ptr];
        j := j + 1;
      }
      return false;
    }
  }

  // ----- the size of the bucket array

  /** Positive numbers and an end mark. */
  predicate Marked(primes: seq<int>) {
    |primes| >= 2 && primes[|primes| - 1] <= 0 && forall i :: 0 <= i < |primes| - 1 ==> primes[i] > 0
  }

  /** The first number beyond `most`, or the last of all. */
  predicate Chosen(primes: seq<int>, most: int, i: nat) {
    i < |primes| - 1 && (primes[i] > most || i == |primes| - 2) && forall j :: 0 <= j < i ==> primes[j] <= most
  }

  /** A positive size is taken as given. The automatic one is the first of the primes beyond the
      number of entries, or the largest. Anything else is refused. */
  method HashSize(maxNumbers: int, hashSize: int, primes: seq<int>) returns (size: Option<nat>, ghost at: nat)
    requires Marked(primes)
    ensures hashSize > 0 ==> size == Some(hashSize)
    ensures hashSize <= 0 && hashSize != NUMHASH_AUTO_HASH ==> size.None?
    ensures hashSize == NUMHASH_AUTO_HASH ==> Chosen(primes, maxNumbers, at) && size == Some(primes[at])
  {
    at := 0;
    if hashSize > 0 { return Some(hashSize), at; }
    if hashSize != NUMHASH_AUTO_HASH { return None, at; }
    var i, chosen := 0, 0;
    while primes[i] > 0
      invariant 0 <= i < |primes|
      invariant i > 0 ==> chosen == primes[i - 1]
      invariant forall j :: 0 <= j < i ==> primes[j] <= maxNumbers
      decreases |primes| - i
    {
      chosen := primes[i];
      if chosen > maxNumbers { return Some(chosen), i; }
      i := i + 1;
    }
    return Some(chosen), i - 1;
  }

  /** A table of the size asked for, empty, or none. */
  method Init(maxNumbers: nat, hashSize: int) returns (made: Numhash?, ghost at: nat)
    ensures made == null <==> hashSize <= 0 && hashSize != NUMHASH_AUTO_HASH
    ensures made != null ==> fresh(made) && made.Valid() && made.table.capacity == maxNumbers
                             && made.table == Empty(maxNumbers, |made.table.buckets|)
    ensures hashSize > 0 ==> |made.table.buckets| == hashSize
    ensures hashSize == NUMHASH_AUTO_HASH ==> Chosen(PRIMES, maxNumbers, at) && |made.table.buckets| == PRIMES[at]
  {
    var size;
    size, at := HashSize(maxNumbers, hashSize, PRIMES);
    if size.None? { return null, at; }
    made := new Numhash(maxNumbers, size.value);
  }
}
