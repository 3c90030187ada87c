/** Awk's associative array: a chained hash table that doubles when it is full
    (src/awk_interp.c, awkHashStr and the awkArray functions). */
module AwkArray {

  import opened AwkValues

  // ---------- the hash ----------

  const ULONG: nat := 0x1_0000_0000_0000_0000

  /** Each character multiplies by 33 and adds, in unsigned 64-bit arithmetic. */
  function HashOf(s: string): nat {
    if s == [] then 5381 else (HashOf(s[..|s| - 1]) * 33 + s[|s| - 1] as nat) % ULONG
  }

  method HashStr(s: string) returns (h: nat)
    ensures h == HashOf(s)
  {
    h := 5381;
    var i := 0;
    while i < |s|
      invariant 0 <= i <= |s|
      invariant h == HashOf(s[..i])
    {
      assert s[..i + 1][..i] == s[..i];
      // (h << 5) wraps before h is added, which changes nothing modulo 2^64
      h := (h * 33 + s[i] as nat) % ULONG;
      i := i + 1;
    }
    assert s[..|s|] == s;
  }

  method SlotOf(key: string, n: nat) returns (i: nat)
    requires n > 0
    ensures i == Slot(key, n)
  {
    var h := HashStr(key);
    i := h % n;
  }

  // ---------- the table ----------

  class Entry {
    const key: string
    var val: AwkValue
    var next: Entry?

    constructor (key: string, val: AwkValue, next: Entry?)
      ensures this.key == key && this.val == val && this.next == next
    {
      this.key, this.val, this.next := key, val, next;
    }
  }

  /** `first` is the head of a null-terminated list of exactly the nodes of `chain`. */
  ghost predicate Linked(first: Entry?, chain: seq<Entry>)
    reads chain
  {
    && first == NodeAt(chain, 0)
    && forall k :: 0 <= k < |chain| ==> chain[k].next == NodeAt(chain, k + 1)
  }

  /** The nodes of bucket `i` out of `n`: no node twice, none of another bucket. */
  ghost predicate ChainOk(chain: seq<Entry>, entries: set<Entry>, i: nat, n: nat)
    requires n > 0
  {
    Distinct(chain) && forall k :: 0 <= k < |chain| ==> chain[k] in entries && Slot(chain[k].key, n) == i
  }

  /** The bucket of a key in a table of `n` buckets. */
  function Slot(key: string, n: nat): (i: nat)
    requires n > 0
    ensures i < n
  {
    HashOf(key) % n
  }

  /** A linked list all of whose nodes are among `nodes`. */
  ghost predicate LinkedIn(first: Entry?, chain: seq<Entry>, nodes: set<Entry>)
    reads nodes
  {
    && (forall k :: 0 <= k < |chain| ==> chain[k] in nodes)
    && Linked(first, chain)
  }

  function NodeAt(chain: seq<Entry>, k: nat): Entry? {
    if k < |chain| then chain[k] else null
  }

  ghost predicate Distinct(chain: seq<Entry>) {
    forall k, l :: 0 <= k < l < |chain| ==> chain[k] != chain[l]
  }

  /** A table of buckets that holds exactly the nodes of `entries`, each once, in
      the chain of bucket hash mod bucket count. */
  ghost predicate Table(buckets: array<Entry?>, chains: seq<seq<Entry>>, entries: set<Entry>)
    reads buckets, entries
  {
    && buckets.Length == |chains| > 0
    && (forall e :: e in entries ==> e in chains[Slot(e.key, |chains|)])
    && (forall i :: 0 <= i < |chains| ==> ChainOk(chains[i], entries, i, |chains|))
    && (forall i :: 0 <= i < |chains| ==> LinkedIn(buckets[i], chains[i], entries))
  }

  lemma TableSize(buckets: array<Entry?>, chains: seq<seq<Entry>>, entries: set<Entry>)
    requires Table(buckets, chains, entries)
    ensures buckets.Length == |chains| > 0
  {
  }

  lemma EmptyTable(buckets: array<Entry?>, n: nat)
    requires buckets.Length == n > 0 && forall i :: 0 <= i < n ==> buckets[i] == null
    ensures Table(buckets, seq(n, _ => []), {})
  {
    hide HashOf, Slot;
  }

  lemma LongerChain(e: Entry, chain: seq<Entry>, first: Entry?)
    requires Linked(first, chain) && e.next == first
    ensures Linked(e, [e] + chain)
  {
  }

  class AwkArray {
    var buckets: array<Entry?>
    var bucketCount: nat
    var count: nat

    /** The finite map the table stands for. */
    ghost var M: map<string, AwkValue>
    ghost var entries: set<Entry>
    ghost var chains: seq<seq<Entry>>
    ghost var Repr: set<object>

    /** The table agrees with the map: every entry holds its key's value, and
        every key of the map has exactly one entry. */
    ghost predicate Agrees()
      reads this, entries
    {
      && (forall e :: e in entries ==> e.key in M && M[e.key] == e.val)
      && (forall s :: s in M ==> exists e :: e in entries && e.key == s)
      && (forall e, f :: e in entries && f in entries && e.key == f.key ==> e == f)
    }

    ghost predicate Valid()
      reads this, Repr
      ensures Valid() ==> this in Repr
    {
      && this in Repr && buckets in Repr && entries <= Repr
      && buckets.Length == bucketCount > 0 && Table(buckets, chains, entries) && Agrees()
      && count == |M| <= 2 * bucketCount
    }

    constructor ()
      ensures Valid() && fresh(Repr)
      ensures M == map[] && bucketCount == 16
    {
      bucketCount, count := 16, 0;
      buckets := new Entry?[16](_ => null);
      M, entries, chains := map[], {}, seq(16, _ => []);
      new;
      Repr := {this, buckets};
    }

    /** A key of the map is in the chain that its hash selects. */
    lemma KeyInBucket(key: string)
      requires Valid()
      ensures bucketCount == |chains|
      ensures var chain := chains[Slot(key, bucketCount)];
              key in M <==> exists k :: 0 <= k < |chain| && chain[k].key == key
    {
      hide Slot;
      var chain := chains[Slot(key, bucketCount)];
      assert ChainOk(chain, entries, Slot(key, bucketCount), bucketCount);
      if key in M {
        var f :| f in entries && f.key == key;
        assert f in chain;
      }
    }

    /** The nodes of a bucket, as a walk along them meets them. */
    lemma Walk(h: nat)
      requires Valid() && h < bucketCount
      ensures h < |chains| && Linked(buckets[h], chains[h])
      ensures forall k :: 0 <= k < |chains[h]| ==> chains[h][k] in entries
    {
      hide HashOf, Slot, Agrees;
    }

    lemma Bound(e: Entry)
      requires Valid() && e in entries
      ensures e.key in M && M[e.key] == e.val
    {
      hide Table, Slot;
    }

    /** The first node of a chain with the key. */
    static method FindInChain(first: Entry?, key: string, ghost chain: seq<Entry>) returns (e: Entry?, ghost k: nat)
      requires Linked(first, chain)
      ensures e == null ==> forall l :: 0 <= l < |chain| ==> chain[l].key != key
      ensures e != null ==> k < |chain| && e == chain[k] && e.key == key
    {
      e := first;
      k := 0;
      while e != null
        invariant 0 <= k <= |chain| && e == NodeAt(chain, k)
        invariant forall l :: 0 <= l < k ==> chain[l].key != key
        decreases |chain| - k
      {
        if e.key == key {
          return;
        }
        e := e.next;
        k := k + 1;
      }
    }

    method Find(key: string) returns (e: Entry?)
      requires Valid()
      ensures e == null <==> key !in M
      ensures e != null ==> e in entries && e.key == key && e.val == M[key]
    {
      hide HashOf, Slot, Table, Agrees, Linked;
      KeyInBucket(key);
      var h := SlotOf(key, bucketCount);
      Walk(h);
      ghost var k;
      e, k := FindInChain(buckets[h], key, chains[h]);
      if e != null {
        assert chains[h][k] in entries;
        Bound(e);
      }
    }

    method Clear()
      requires Valid()
      modifies Repr
      ensures Valid() && Repr <= old(Repr)
      ensures M == map[] && bucketCount == old(bucketCount)
    {
      hide Table;
      TableSize(buckets, chains, entries);
      EmptyBuckets(buckets);
      EmptyTable(buckets, bucketCount);
      count := 0;
      M, entries, chains, Repr := map[], {}, seq(bucketCount, _ => []), {this, buckets};
    }

    static method EmptyBuckets(buckets: array<Entry?>)
      modifies buckets
      ensures forall j :: 0 <= j < buckets.Length ==> buckets[j] == null
    {
      var i := 0;
      while i < buckets.Length
        invariant 0 <= i <= buckets.Length
        invariant forall j :: 0 <= j < i ==> buckets[j] == null
      {
        buckets[i] := null;
        i := i + 1;
      }
    }

    /** Pushes one node on the front of its bucket in the new table. */
    static method PushNode(e: Entry, buckets: array<Entry?>, ghost chains: seq<seq<Entry>>, ghost moved: set<Entry>)
      returns (ghost chains': seq<seq<Entry>>)
      requires Table(buckets, chains, moved) && e !in moved
      modifies e`next, buckets
      ensures Table(buckets, chains', moved + {e})
      ensures |chains'| == |chains|
    {
      hide HashOf, Slot, ChainOk, Linked, NodeAt;
      var h := SlotOf(e.key, buckets.Length);
      e.next := buckets[h];
      buckets[h] := e;
      chains' := chains[h := [e] + chains[h]];
      forall f | f in moved + {e}
        ensures f in chains'[Slot(f.key, |chains|)]
      {
        if f != e {
          assert f in chains[Slot(f.key, |chains|)];
        }
      }
      forall i | 0 <= i < |chains|
        ensures LinkedIn(buckets[i], chains'[i], moved + {e}) && ChainOk(chains'[i], moved + {e}, i, |chains|)
      {
        assert old(LinkedIn(buckets[i], chains[i], moved)) && ChainOk(chains[i], moved, i, |chains|);
        OneMoreNode(e, chains[i], moved, i, |chains|);
        if i == h {
          LongerChain(e, chains[i], buckets[i].next);
        }
      }
    }

    static lemma OneMoreNode(e: Entry, chain: seq<Entry>, moved: set<Entry>, i: nat, n: nat)
      requires n > 0 && e !in moved && ChainOk(chain, moved, i, n)
      ensures ChainOk(chain, moved + {e}, i, n)
      ensures Slot(e.key, n) == i ==> ChainOk([e] + chain, moved + {e}, i, n)
    {
      hide Slot;
    }

    /** Moves the nodes of one old chain, front to back. */
    static method MoveChain(first: Entry?, ghost chain: seq<Entry>, buckets: array<Entry?>,
                            ghost chains: seq<seq<Entry>>, ghost moved: set<Entry>)
      returns (ghost chains': seq<seq<Entry>>, ghost moved': set<Entry>)
      requires Linked(first, chain) && Distinct(chain)
      requires Table(buckets, chains, moved)
      requires forall k :: 0 <= k < |chain| ==> chain[k] !in moved
      modifies chain, buckets
      ensures moved' == moved + (set e | e in chain)
      ensures Table(buckets, chains', moved') && |chains'| == |chains|
      ensures forall k :: 0 <= k < |chain| ==> chain[k].val == old(chain[k].val)
    {
      hide HashOf, Slot, Table;
      chains', moved' := chains, moved;
      var e := first;
      ghost var k := 0;
      while e != null
        invariant 0 <= k <= |chain| && e == NodeAt(chain, k)
        invariant forall l :: k <= l < |chain| ==> chain[l].next == NodeAt(chain, l + 1)
        invariant forall l :: 0 <= l < |chain| ==> chain[l].val == old(chain[l].val)
        invariant moved' == moved + (set e | e in chain[..k])
        invariant Table(buckets, chains', moved') && |chains'| == |chains|
        decreases |chain| - k
      {
        var next := e.next;
        chains' := PushNode(e, buckets, chains', moved');
        moved' := moved' + {e};
        e := next;
        k := k + 1;
      }
      assert chain[..k] == chain;
    }

    twostate lemma ChainsOfTable(i: nat)
      requires old(Valid()) && i < old(bucketCount)
      requires unchanged(this)
      ensures old(LinkedIn(buckets[i], chains[i], entries)) && ChainOk(chains[i], entries, i, bucketCount)
      ensures (set e | e in chains[i]) == set e | e in entries && Slot(e.key, bucketCount) == i
    {
    }

    /** The bindings depend on the nodes' keys and values only, not on the chains. */
    twostate lemma AgreesStill()
      requires old(Agrees()) && M == old(M) && entries == old(entries)
      requires forall e :: e in entries ==> e.val == old(e.val)
      ensures Agrees()
    {
    }

    /** Moves every node to a table twice as large; no binding changes. */
    method Rehash()
      requires Valid()
      modifies Repr
      ensures Valid() && fresh(Repr - old(Repr))
      ensures M == old(M) && entries == old(entries) && count == old(count)
      ensures bucketCount == 2 * old(bucketCount)
    {
      hide Table, Slot, Agrees, NodeAt, HashOf;
      TableSize(buckets, chains, entries);
      var newCount := bucketCount * 2;
      var newBuckets := new Entry?[newCount](_ => null);
      EmptyTable(newBuckets, newCount);
      ghost var newChains: seq<seq<Entry>> := seq(newCount, _ => []);
      ghost var moved: set<Entry> := {};
      var i := 0;
      while i < bucketCount
        invariant 0 <= i <= bucketCount
        invariant unchanged(this) && unchanged(buckets) && fresh(newBuckets)
        invariant newBuckets.Length == newCount == |newChains|
        invariant moved == set e | e in entries && Slot(e.key, bucketCount) < i
        invariant Table(newBuckets, newChains, moved)
        invariant forall e :: e in entries ==> e.val == old(e.val)
        invariant forall e :: e in entries && e !in moved ==> e.next == old(e.next)
      {
        ChainsOfTable(i);
        newChains, moved := MoveChain(buckets[i], chains[i], newBuckets, newChains, moved);
        i := i + 1;
      }
      assert moved == entries;
      buckets, bucketCount, chains, Repr := newBuckets, newCount, newChains, Repr + {newBuckets};
      AgreesStill();
    }

    /** Reading a subscript creates it: an absent key gets an uninitialized value. */
    method GetOrCreate(key: string) returns (e: Entry)
      requires Valid()
      modifies Repr
      ensures Valid() && fresh(Repr - old(Repr))
      ensures M == if key in old(M) then old(M) else old(M)[key := Uninit]
      ensures e in entries && e in Repr && e.key == key
    {
      hide Table, Agrees;
      var found := Find(key);
      if found != null {
        e := found;
        return;
      }
      if count + 1 > bucketCount * 2 {
        Rehash();
      }
      e := new Entry(key, Uninit, null);
      AddNode(e);
    }

    /** Puts a node with a new key into its bucket. */
    method AddNode(e: Entry)
      requires Valid() && e.key !in M && e !in Repr && count + 1 <= bucketCount * 2
      modifies this, buckets, e`next
      ensures Valid() && Repr == old(Repr) + {e}
      ensures M == old(M)[e.key := e.val] && entries == old(entries) + {e}
    {
      hide Table, HashOf, Agrees;
      ghost var more := PushNode(e, buckets, chains, entries);
      M, entries, chains, Repr := M[e.key := e.val], entries + {e}, more, Repr + {e};
      count := count + 1;
      AgreesWith(e);
    }

    /** `a[key] = val`. */
    method Set(key: string, val: AwkValue)
      requires Valid()
      modifies Repr
      ensures Valid() && fresh(Repr - old(Repr))
      ensures M == old(M)[key := val]
    {
      hide *;
      var e := GetOrCreate(key);
      Assign(e, val);
    }

    method Assign(e: Entry, val: AwkValue)
      requires Valid() && e in entries
      modifies this`M, e`val
      ensures Valid() && M == old(M)[e.key := val] && e.key in old(M)
    {
      hide Table, Agrees;
      KeyOf(e);
      e.val := val;
      M := M[e.key := val];
      TableStill();
      AgreesAssigned(e);
    }

    twostate lemma AgreesAssigned(e: Entry)
      requires old(Agrees()) && e in entries && entries == old(entries)
      requires M == old(M)[e.key := e.val]
      requires forall f :: f in entries && f != e ==> f.val == old(f.val)
      ensures Agrees()
    {
    }

    /** Assigning to a node's value moves no node. */
    twostate lemma TableStill()
      requires old(Table(buckets, chains, entries))
      requires buckets == old(buckets) && chains == old(chains) && entries == old(entries)
      requires unchanged(buckets)
      requires forall f :: f in entries ==> f.next == old(f.next)
      ensures Table(buckets, chains, entries)
    {
      hide HashOf, Slot;
      forall i | 0 <= i < |chains|
        ensures LinkedIn(buckets[i], chains[i], entries)
      {
        assert old(LinkedIn(buckets[i], chains[i], entries));
      }
    }

    method Delete(key: string) returns (found: bool)
      requires Valid()
      modifies Repr
      ensures Valid() && Repr <= old(Repr)
      ensures found <==> key in old(M)
      ensures M == old(M) - {key}
    {
      var prev, e, h, k := FindLink(key);
      if e != null {
        hide Table, Agrees;
        RemoveNode(prev, e, h, k);
        return true;
      }
      return false;
    }

    /** Walks bucket `h` with a pointer to the link that leads to the current node. */
    /** The first node of a chain with the key, and the one before it. */
    static method LinkInChain(first: Entry?, key: string, ghost chain: seq<Entry>)
      returns (prev: Entry?, e: Entry?, ghost k: nat)
      requires Linked(first, chain)
      ensures e == null ==> forall l :: 0 <= l < |chain| ==> chain[l].key != key
      ensures e != null ==> k < |chain| && e == chain[k] && e.key == key && prev == if k == 0 then null else chain[k - 1]
    {
      prev, e := null, first;
      k := 0;
      while e != null
        invariant 0 <= k <= |chain| && e == NodeAt(chain, k)
        invariant prev == if k == 0 then null else chain[k - 1]
        invariant forall l :: 0 <= l < k ==> chain[l].key != key
        decreases |chain| - k
      {
        if e.key == key {
          return;
        }
        prev, e := e, e.next;
        k := k + 1;
      }
    }

    method FindLink(key: string) returns (prev: Entry?, e: Entry?, h: nat, ghost k: nat)
      requires Valid()
      ensures e == null <==> key !in M
      ensures e != null ==> h < |chains| && k < |chains[h]| && e == chains[h][k] && e in entries && e.key == key
      ensures e != null ==> prev == if k == 0 then null else chains[h][k - 1]
      ensures e != null && prev != null ==> prev in entries
    {
      hide HashOf, Slot, Table, Agrees, Linked;
      KeyInBucket(key);
      h := SlotOf(key, bucketCount);
      Walk(h);
      prev, e, k := LinkInChain(buckets[h], key, chains[h]);
      if e != null {
        assert chains[h][k] in entries;
      }
    }

    method RemoveNode(prev: Entry?, e: Entry, h: nat, ghost k: nat)
      requires Valid() && h < |chains| && k < |chains[h]| && e == chains[h][k] && e in entries
      requires prev == (if k == 0 then null else chains[h][k - 1]) && (prev != null ==> prev in entries)
      modifies Repr
      ensures Valid() && Repr == old(Repr)
      ensures M == old(M) - {e.key}
    {
      hide Table, Agrees;
      assert e.key in M by {
        KeyOf(e);
      }
      TableSize(buckets, chains, entries);
      ghost var fewer := Unlink(prev, e, buckets, h, k, chains, entries);
      entries, chains, M := entries - {e}, fewer, M - {e.key};
      count := count - 1;
      AgreesWithout(e);
    }

    lemma KeyOf(e: Entry)
      requires Agrees() && e in entries
      ensures e.key in M
    {
    }

    twostate lemma AgreesWithout(e: Entry)
      requires old(Agrees()) && e in old(entries)
      requires M == old(M) - {e.key} && entries == old(entries) - {e}
      requires forall f :: f in entries ==> f.val == old(f.val)
      ensures Agrees()
    {
      forall s | s in M
        ensures exists f :: f in entries && f.key == s
      {
        var f :| f in old(entries) && f.key == s;
      }
    }

    twostate lemma AgreesWith(new e: Entry)
      requires old(Agrees()) && e.key !in old(M) && e !in old(entries)
      requires M == old(M)[e.key := e.val] && entries == old(entries) + {e}
      requires forall f :: f in old(entries) ==> f.val == old(f.val)
      ensures Agrees()
    {
      forall s | s in M
        ensures exists f :: f in entries && f.key == s
      {
        if s != e.key {
          var f :| f in old(entries) && f.key == s;
        }
      }
    }

    /** Takes node `k` out of chain `h`: the link that led to it now skips it. */
    static method Unlink(prev: Entry?, e: Entry, buckets: array<Entry?>, h: nat, ghost k: nat,
                         ghost chains: seq<seq<Entry>>, ghost entries: set<Entry>)
      returns (ghost chains': seq<seq<Entry>>)
      requires Table(buckets, chains, entries) && h < |chains| && k < |chains[h]|
      requires e == chains[h][k] && prev == (if k == 0 then null else chains[h][k - 1])
      modifies buckets, (if prev == null then {} else {prev})`next
      ensures Table(buckets, chains', entries - {e}) && |chains'| == |chains|
    {
      hide HashOf, Slot;
      assert ChainOk(chains[h], entries, h, |chains|) && LinkedIn(buckets[h], chains[h], entries);
      if prev == null {
        buckets[h] := e.next;
      } else {
        prev.next := e.next;
      }
      ghost var shorter := chains[h][..k] + chains[h][k + 1..];
      chains' := chains[h := shorter];
      forall f | f in entries - {e}
        ensures f in chains'[Slot(f.key, |chains|)]
      {
        assert f in chains[Slot(f.key, |chains|)];
        InShorter(chains[h], k, f);
      }
      forall i | 0 <= i < |chains|
        ensures LinkedIn(buckets[i], chains'[i], entries - {e}) && ChainOk(chains'[i], entries - {e}, i, |chains|)
      {
        assert old(LinkedIn(buckets[i], chains[i], entries)) && ChainOk(chains[i], entries, i, |chains|);
        if i == h {
          ShorterChain(buckets[h], chains[h], k);
          ShorterChainOk(chains[h], entries, h, |chains|, k);
        } else {
          OtherChain(chains[i], chains[h], entries, i, h, |chains|);
          WithoutNode(buckets[i], chains[i], entries, e);
        }
      }
    }

    static lemma ShorterChainOk(chain: seq<Entry>, entries: set<Entry>, i: nat, n: nat, k: nat)
      requires n > 0 && ChainOk(chain, entries, i, n) && k < |chain|
      ensures ChainOk(chain[..k] + chain[k + 1..], entries - {chain[k]}, i, n)
    {
      hide Slot;
    }

    static lemma OtherChain(chain: seq<Entry>, other: seq<Entry>, entries: set<Entry>, i: nat, j: nat, n: nat)
      requires n > 0 && ChainOk(chain, entries, i, n) && ChainOk(other, entries, j, n) && i != j
      ensures forall k :: 0 <= k < |other| ==> other[k] !in chain
      ensures forall k :: 0 <= k < |other| ==> ChainOk(chain, entries - {other[k]}, i, n)
    {
      hide Slot;
    }

    static lemma WithoutNode(first: Entry?, chain: seq<Entry>, entries: set<Entry>, e: Entry)
      requires LinkedIn(first, chain, entries) && e !in chain
      ensures LinkedIn(first, chain, entries - {e})
    {
    }

    static lemma ShorterChain(first: Entry?, chain: seq<Entry>, k: nat)
      requires k < |chain| && Distinct(chain)
      requires first == NodeAt(chain, if k == 0 then 1 else 0)
      requires forall l :: 0 <= l < |chain| && l != k - 1 && l != k ==> chain[l].next == NodeAt(chain, l + 1)
      requires k > 0 ==> chain[k - 1].next == NodeAt(chain, k + 1)
      ensures Linked(first, chain[..k] + chain[k + 1..]) && Distinct(chain[..k] + chain[k + 1..])
    {
      var shorter := chain[..k] + chain[k + 1..];
      forall l | 0 <= l < |shorter|
        ensures shorter[l].next == NodeAt(shorter, l + 1)
      {
        assert shorter[l] == if l < k then chain[l] else chain[l + 1];
      }
    }

    static lemma InShorter(chain: seq<Entry>, k: nat, f: Entry)
      requires k < |chain|
      ensures f in chain && f != chain[k] ==> f in chain[..k] + chain[k + 1..]
    {
      if f in chain && f != chain[k] {
        var l :| 0 <= l < |chain| && chain[l] == f;
        var shorter := chain[..k] + chain[k + 1..];
        assert f == if l < k then shorter[l] else shorter[l - 1];
      }
    }

    /** The keys a for-in loop visits: collected before the body runs, bucket by
        bucket, each key of the map exactly once. */
    method SnapshotKeys() returns (keys: seq<string>)
      requires Valid()
      ensures |keys| == count
      ensures NoRepeats(keys)
      ensures (set s | s in keys) == M.Keys
    {
      hide Slot, ChainOk, Agrees, KeysUpTo;
      keys := [];
      NoKeys(chains);
      var b := 0;
      while b < bucketCount
        invariant 0 <= b <= bucketCount
        invariant keys == KeysUpTo(chains, b)
      {
        assert LinkedIn(buckets[b], chains[b], entries);
        keys := CollectChain(buckets[b], chains[b], keys);
        MoreKeys(chains, b);
        b := b + 1;
      }
      hide *;
      EveryKeyListed();
      DistinctSize(keys);
    }

    lemma EveryKeyListed()
      requires Valid()
      ensures |chains| == bucketCount && |M.Keys| == count
      ensures NoRepeats(KeysUpTo(chains, bucketCount))
      ensures (set s | s in KeysUpTo(chains, bucketCount)) == M.Keys
    {
      KeysOfTable(buckets, chains, entries, bucketCount);
      hide Table, Slot, KeysUpTo;
      forall s
        ensures s in KeysUpTo(chains, bucketCount) <==> s in M
      {
        if s in M {
          var e :| e in entries && e.key == s;
        }
      }
    }

    static method CollectChain(first: Entry?, ghost chain: seq<Entry>, before: seq<string>) returns (keys: seq<string>)
      requires Linked(first, chain)
      ensures keys == before + ChainKeys(chain)
    {
      keys := before;
      var e := first;
      ghost var k := 0;
      while e != null
        invariant 0 <= k <= |chain| && e == NodeAt(chain, k)
        invariant keys == before + ChainKeys(chain[..k])
        decreases |chain| - k
      {
        assert chain[..k + 1][..k] == chain[..k];
        keys := keys + [e.key];
        e := e.next;
        k := k + 1;
      }
      assert chain[..k] == chain;
    }
  }

  function ChainKeys(chain: seq<Entry>): (r: seq<string>)
    ensures |r| == |chain| && forall k :: 0 <= k < |chain| ==> r[k] == chain[k].key
  {
    if chain == [] then [] else ChainKeys(chain[..|chain| - 1]) + [chain[|chain| - 1].key]
  }

  /** The keys of the first `b` chains, in order. */
  function KeysUpTo(chains: seq<seq<Entry>>, b: nat): seq<string>
    requires b <= |chains|
  {
    if b == 0 then [] else KeysUpTo(chains, b - 1) + ChainKeys(chains[b - 1])
  }

  lemma NoKeys(chains: seq<seq<Entry>>)
    ensures KeysUpTo(chains, 0) == []
  {
  }

  lemma MoreKeys(chains: seq<seq<Entry>>, b: nat)
    requires b < |chains|
    ensures KeysUpTo(chains, b + 1) == KeysUpTo(chains, b) + ChainKeys(chains[b])
  {
  }

  /** Some entry of the first `b` buckets out of `n` has key `s`. */
  ghost predicate KeyBelow(entries: set<Entry>, s: string, b: nat, n: nat)
    requires n > 0
  {
    exists e :: e in entries && Slot(e.key, n) < b && e.key == s
  }

  ghost predicate NoRepeats(s: seq<string>) {
    forall j, k :: 0 <= j < k < |s| ==> s[j] != s[k]
  }

  lemma KeysOfChain(chain: seq<Entry>, entries: set<Entry>, i: nat, n: nat)
    requires n > 0 && ChainOk(chain, entries, i, n)
    requires forall e, f :: e in entries && f in entries && e.key == f.key ==> e == f
    ensures NoRepeats(ChainKeys(chain))
    ensures forall s :: s in ChainKeys(chain) ==> Slot(s, n) == i && exists e :: e in chain && e.key == s
    ensures forall e :: e in chain ==> e.key in ChainKeys(chain)
  {
    hide Slot;
    forall e | e in chain
      ensures e.key in ChainKeys(chain)
    {
      var k :| 0 <= k < |chain| && chain[k] == e;
      assert ChainKeys(chain)[k] == e.key;
    }
  }

  /** The chains of the first `b` buckets list exactly the keys that hash there, once each. */
  lemma {:induction false} KeysOfTable(buckets: array<Entry?>, chains: seq<seq<Entry>>, entries: set<Entry>, b: nat)
    requires Table(buckets, chains, entries) && b <= |chains|
    requires forall e, f :: e in entries && f in entries && e.key == f.key ==> e == f
    ensures forall s :: s in KeysUpTo(chains, b) <==> KeyBelow(entries, s, b, |chains|)
    ensures NoRepeats(KeysUpTo(chains, b))
  {
    hide Slot, Linked, ChainKeys;
    if b > 0 {
      KeysOfTable(buckets, chains, entries, b - 1);
      var front, keys, n := KeysUpTo(chains, b - 1), ChainKeys(chains[b - 1]), |chains|;
      assert ChainOk(chains[b - 1], entries, b - 1, n);
      KeysOfChain(chains[b - 1], entries, b - 1, n);
      forall s
        ensures s in front + keys <==> KeyBelow(entries, s, b, n)
      {
        if KeyBelow(entries, s, b, n) {
          var e :| e in entries && Slot(e.key, n) < b && e.key == s;
          assert e in chains[Slot(e.key, n)];
          assert Slot(e.key, n) < b - 1 ==> KeyBelow(entries, s, b - 1, n);
        }
      }
      forall j, k | 0 <= j < |front| && 0 <= k < |keys|
        ensures front[j] != keys[k]
      {
        assert front[j] in front && keys[k] in keys;
      }
    }
  }

  lemma {:induction false} DistinctSize(s: seq<string>)
    requires NoRepeats(s)
    ensures |set x | x in s| == |s|
  {
    if s != [] {
      var front, last := s[..|s| - 1], s[|s| - 1];
      DistinctSize(front);
      assert (set x | x in s) == (set x | x in front) + {last};
    }
  }

  // ---------- whole runs ----------

  datatype Op = Get(key: string) | Put(key: string, val: AwkValue) | In(key: string) | Remove(key: string) | RemoveAll | Length

  datatype Answer = Value(val: AwkValue) | Truth(b: bool) | Size(n: nat) | Done

  /** What awk promises of one operation, on finite maps. */
  function StepModel(m: map<string, AwkValue>, op: Op): (map<string, AwkValue>, Answer) {
    match op
    case Get(k) => if k in m then (m, Value(m[k])) else (m[k := Uninit], Value(Uninit))
    case Put(k, v) => (m[k := v], Done)
    case In(k) => (m, Truth(k in m))
    case Remove(k) => (m - {k}, Done)
    case RemoveAll => (map[], Done)
    case Length => (m, Size(|m|))
  }

  function RunModel(m: map<string, AwkValue>, ops: seq<Op>): (map<string, AwkValue>, seq<Answer>) {
    if ops == [] then (m, [])
    else
      var (m', answers) := RunModel(m, ops[..|ops| - 1]);
      var (m'', answer) := StepModel(m', ops[|ops| - 1]);
      (m'', answers + [answer])
  }

  method Step(t: AwkArray, op: Op) returns (answer: Answer)
    requires t.Valid()
    modifies t.Repr
    ensures t.Valid() && fresh(t.Repr - old(t.Repr))
    ensures (t.M, answer) == StepModel(old(t.M), op)
  {
    hide Table;
    match op {
      case Get(k) =>
        var e := t.GetOrCreate(k);
        ValueOf(t, e);
        answer := Value(e.val);
      case Put(k, v) =>
        t.Set(k, v);
        answer := Done;
      case In(k) =>
        var e := t.Find(k);
        answer := Truth(e != null);
      case Remove(k) =>
        var found := t.Delete(k);
        answer := Done;
      case RemoveAll =>
        t.Clear();
        answer := Done;
      case Length =>
        answer := Size(t.count);
    }
  }

  lemma ValueOf(t: AwkArray, e: Entry)
    requires t.Valid() && e in t.entries
    ensures e.key in t.M && t.M[e.key] == e.val
  {
  }

  lemma RunNext(m: map<string, AwkValue>, ops: seq<Op>, i: nat)
    requires i < |ops|
    ensures var (m', answers) := RunModel(m, ops[..i]);
            var (m'', answer) := StepModel(m', ops[i]);
            RunModel(m, ops[..i + 1]) == (m'', answers + [answer])
  {
    hide StepModel;
    assert ops[..i + 1][..i] == ops[..i];
  }

  /** Under any sequence of operations the table answers exactly as the map does. */
  method Run(t: AwkArray, ops: seq<Op>) returns (answers: seq<Answer>)
    requires t.Valid()
    modifies t.Repr
    ensures t.Valid() && fresh(t.Repr - old(t.Repr))
    ensures (t.M, answers) == RunModel(old(t.M), ops)
  {
    answers := [];
    var i := 0;
    assert RunModel(t.M, ops[..0]) == (t.M, []);
    hide StepModel, RunModel, Table, Slot;
    while i < |ops|
      invariant 0 <= i <= |ops|
      invariant t.Valid() && fresh(t.Repr - old(t.Repr))
      invariant (t.M, answers) == RunModel(old(t.M), ops[..i])
    {
      RunNext(old(t.M), ops, i);
      var answer := Step(t, ops[i]);
      answers := answers + [answer];
      i := i + 1;
    }
    assert ops[..|ops|] == ops;
  }
}
