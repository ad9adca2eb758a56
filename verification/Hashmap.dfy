/**
  The chained hash table of kernel/hashmap.h.  `dict` is the finite map that it stands for; the
  load test size / bucket_count > 0.75 is taken over the reals.
*/
module Hashmaps {
  import opened Primes

  // ---- the table as rows of entries

  type Row<K, V> = seq<(K, V)>

  /** Keys are in the row of their hash, and only once. */
  ghost predicate Placed<K, V>(hash: K -> nat, rows: seq<Row<K, V>>) {
    && |rows| > 0
    && (forall i, j :: 0 <= i < |rows| && 0 <= j < |rows[i]| ==> hash(rows[i][j].0) % |rows| == i)
    && (forall i, j, j' :: 0 <= i < |rows| && 0 <= j < j' < |rows[i]| ==> rows[i][j].0 != rows[i][j'].0)
  }

  predicate Within<K(==), V(==)>(row: Row<K, V>, dict: map<K, V>) {
    forall j :: 0 <= j < |row| ==> row[j].0 in dict && dict[row[j].0] == row[j].1
  }

  predicate Has<K(==), V>(row: Row<K, V>, key: K) {
    exists j :: 0 <= j < |row| && row[j].0 == key
  }

  /** The rows hold exactly the entries of dict. */
  ghost predicate Holds<K, V>(hash: K -> nat, rows: seq<Row<K, V>>, dict: map<K, V>) {
    && |rows| > 0
    && (forall i :: 0 <= i < |rows| ==> Within(rows[i], dict))
    && (forall k :: k in dict ==> Has(rows[hash(k) % |rows|], k))
  }

  lemma PlacedAppend<K, V>(hash: K -> nat, rows: seq<Row<K, V>>, key: K, val: V)
    requires Placed(hash, rows) && !Has(rows[hash(key) % |rows|], key)
    ensures Placed(hash, rows[hash(key) % |rows| := rows[hash(key) % |rows|] + [(key, val)]])
  {
    var b := hash(key) % |rows|;
    assert forall j :: 0 <= j < |rows[b]| ==> rows[b][j].0 != key;
  }

  lemma HoldsAppend<K, V>(hash: K -> nat, rows: seq<Row<K, V>>, dict: map<K, V>, key: K, val: V)
    requires Holds(hash, rows, dict) && key !in dict
    ensures Holds(hash, rows[hash(key) % |rows| := rows[hash(key) % |rows|] + [(key, val)]], dict[key := val])
  {
    var b := hash(key) % |rows|;
    var rows' := rows[b := rows[b] + [(key, val)]];
    forall i | 0 <= i < |rows| ensures Within(rows'[i], dict[key := val]) {
      assert Within(rows[i], dict);
    }
    forall k | k in dict[key := val] ensures Has(rows'[hash(k) % |rows|], k) {
      if k == key {
        assert rows'[b][|rows[b]|].0 == key;
      } else {
        HasMore(rows[hash(k) % |rows|], k, (key, val));
      }
    }
  }

  lemma HasMore<K, V>(row: Row<K, V>, k: K, e: (K, V))
    requires Has(row, k)
    ensures Has(row + [e], k)
  {
    var j :| 0 <= j < |row| && row[j].0 == k;
    assert (row + [e])[j].0 == k;
  }

  /** A key of dict is found in its row, and nowhere else. */
  lemma HasIff<K, V>(hash: K -> nat, rows: seq<Row<K, V>>, dict: map<K, V>, key: K)
    requires Holds(hash, rows, dict)
    ensures Has(rows[hash(key) % |rows|], key) <==> key in dict
  {
    var b := hash(key) % |rows|;
    assert Within(rows[b], dict);
  }

  /** Different places hold different keys. */
  lemma KeysDiffer<K, V>(hash: K -> nat, rows: seq<Row<K, V>>, i: nat, j: nat, i': nat, j': nat)
    requires Placed(hash, rows) && i < |rows| && j < |rows[i]| && i' < |rows| && j' < |rows[i']| && (i != i' || j != j')
    ensures rows[i][j].0 != rows[i'][j'].0
  {
  }

  // ---- a row changes

  lemma PlacedSet<K, V>(hash: K -> nat, rows: seq<Row<K, V>>, b: nat, row: Row<K, V>)
    requires Placed(hash, rows) && b < |rows|
    requires forall j :: 0 <= j < |row| ==> hash(row[j].0) % |rows| == b
    requires forall j, j' :: 0 <= j < j' < |row| ==> row[j].0 != row[j'].0
    ensures Placed(hash, rows[b := row])
  {
  }

  /** The rows hold what dict says once row b does. */
  lemma HoldsSet<K, V>(hash: K -> nat, rows: seq<Row<K, V>>, dict: map<K, V>, b: nat, row: Row<K, V>, dict': map<K, V>)
    requires Placed(hash, rows) && Holds(hash, rows, dict) && b < |rows| && Within(row, dict')
    requires forall k :: k in dict' && hash(k) % |rows| == b ==> Has(row, k)
    requires forall k :: hash(k) % |rows| != b ==> (k in dict' <==> k in dict) && (k in dict ==> dict'[k] == dict[k])
    ensures Holds(hash, rows[b := row], dict')
  {
    var rows' := rows[b := row];
    forall i | 0 <= i < |rows| ensures Within(rows'[i], dict') {
      if i != b { assert Within(rows[i], dict); }
    }
    forall k | k in dict' ensures Has(rows'[hash(k) % |rows|], k) {
    }
  }

  predicate Overloaded(size: nat, buckets: nat) { 4 * size > 3 * buckets }

  // ---- the table in memory

  class Hashnode<K, V> {
    const key: K
    var val: V
    var next: Hashnode?<K, V>

    constructor (key: K, val: V)
      ensures this.key == key && this.val == val && next == null
    {
      this.key, this.val, this.next := key, val, null;
    }
  }

  type Chain<K, V> = seq<Hashnode<K, V>>

  /** The nodes of c, linked from head. */
  ghost predicate Linked<K, V>(head: Hashnode?<K, V>, c: Chain<K, V>)
    reads c
  {
    && head == (if c == [] then null else c[0])
    && (forall j :: 0 <= j < |c| - 1 ==> c[j].next == c[j + 1])
    && (c != [] ==> c[|c| - 1].next == null)
  }

  ghost function NodesOf<K, V>(chains: seq<Chain<K, V>>): set<Hashnode<K, V>> {
    set i, j | 0 <= i < |chains| && 0 <= j < |chains[i]| :: chains[i][j]
  }

  lemma NodesGrow<K, V>(chains: seq<Chain<K, V>>, b: nat, node: Hashnode<K, V>)
    requires b < |chains|
    ensures NodesOf(chains[b := chains[b] + [node]]) == NodesOf(chains) + {node}
  {
    var chains' := chains[b := chains[b] + [node]];
    forall n | n in NodesOf(chains) ensures n in NodesOf(chains') {
      var i, j :| 0 <= i < |chains| && 0 <= j < |chains[i]| && chains[i][j] == n;
      assert chains'[i][j] == n;
    }
    assert chains'[b][|chains[b]|] == node;
  }

  ghost function RowOf<K, V>(c: Chain<K, V>): (r: Row<K, V>)
    reads c
    ensures |r| == |c| && forall j :: 0 <= j < |c| ==> r[j] == (c[j].key, c[j].val)
  {
    seq(|c|, (j: nat) requires j < |c| reads c => (c[j].key, c[j].val))
  }

  class Hashmap<K(==), V> {
    const hash: K -> nat
    const initial: V
    var table: array<Hashnode?<K, V>>
    var size: nat
    var bucketCount: nat
    ghost var chains: seq<Chain<K, V>>
    ghost var dict: map<K, V>

    ghost function Nodes(): set<Hashnode<K, V>>
      reads this
    {
      NodesOf(chains)
    }

    ghost function Rows(): (r: seq<Row<K, V>>)
      reads this, Nodes()
      ensures |r| == |chains| && forall i :: 0 <= i < |chains| ==> r[i] == RowOf(chains[i])
    {
      seq(|chains|, (i: nat) requires i < |chains| reads this, Nodes() => RowOf(chains[i]))
    }

    ghost predicate AllLinked()
      reads this, table, Nodes()
    {
      && table.Length == |chains|
      && forall i :: 0 <= i < |chains| ==> Linked(table[i], chains[i])
    }

    /** The table is in order, except that size may be wrong. */
    ghost predicate Sound()
      reads this, table, Nodes()
    {
      bucketCount == |chains| && AllLinked() && Placed(hash, Rows()) && Holds(hash, Rows(), dict)
    }

    ghost predicate Valid()
      reads this, table, Nodes()
    {
      Sound() && size == |dict| && 4 * size <= 3 * bucketCount + 4
    }

    constructor (hash: K -> nat, initial: V)
      ensures Valid() && fresh(table) && dict == map[] && Nodes() == {}
      ensures this.hash == hash && this.initial == initial && bucketCount == 101
    {
      this.hash, this.initial := hash, initial;
      table := new Hashnode?<K, V>[101](_ => null);
      size, bucketCount := 0, 101;
      chains, dict := seq(101, _ => []), map[];
    }

    function Bucket(key: K): nat
      requires bucketCount > 0
      reads this
    {
      hash(key) % bucketCount
    }

    /**
      The walk along a bucket that find, at, insert and [] share: the node with the key, and the
      last one before it.
    */
    method Walk(key: K) returns (cur: Hashnode?<K, V>, prev: Hashnode?<K, V>, ghost at: nat)
      requires Sound()
      ensures Sound() && (Valid() <==> old(Valid())) && bucketCount == |chains| > 0 && at <= |chains[Bucket(key)]|
      ensures cur == if at < |chains[Bucket(key)]| then chains[Bucket(key)][at] else null
      ensures prev == if at == 0 then null else chains[Bucket(key)][at - 1]
      ensures cur != null ==> cur.key == key && key in dict && cur.val == dict[key]
      ensures cur == null ==> key !in dict
    {
      hide Placed, Holds, Rows, Has;
      SomeBucket();
      var b := Bucket(key);
      ghost var c := chains[b];
      assert Linked(table[b], c);
      cur, prev, at := table[b], null, 0;
      while cur != null
        invariant Linked(table[b], c) && at <= |c| && cur == if at < |c| then c[at] else null
        invariant prev == if at == 0 then null else c[at - 1]
        invariant forall j :: 0 <= j < at ==> c[j].key != key
        decreases |c| - at
      {
        if cur.key == key {
          Present(b, at);
          return;
        }
        prev := cur;
        cur := cur.next;
        at := at + 1;
      }
      Absent(key);
    }

    lemma WrongSize()
      requires size != |dict|
      ensures !Valid()
    {
    }

    lemma SomeBucket()
      requires Sound()
      ensures bucketCount == |chains| > 0 && table.Length == |chains|
    {
    }

    lemma BucketThere()
      requires Valid()
      ensures Sound() && bucketCount == |chains| > 0 && table.Length == |chains| && size == |dict|
      ensures 4 * size <= 3 * bucketCount + 4
    {
    }

    lemma Present(i: nat, j: nat)
      requires Sound() && i < |chains| && j < |chains[i]|
      ensures chains[i][j].key in dict && dict[chains[i][j].key] == chains[i][j].val
    {
      assert Within(Rows()[i], dict);
      assert Rows()[i][j] == (chains[i][j].key, chains[i][j].val);
    }

    lemma Absent(key: K)
      requires Sound() && bucketCount > 0
      requires forall j :: 0 <= j < |chains[Bucket(key)]| ==> chains[Bucket(key)][j].key != key
      ensures key !in dict && !Has(Rows()[Bucket(key)], key)
    {
      hide Placed, Holds;
      var b := Bucket(key);
      assert |Rows()| == bucketCount;
      assert forall j :: 0 <= j < |Rows()[b]| ==> Rows()[b][j].0 != key;
      assert !Has(Rows()[b], key);
      HasIff(hash, Rows(), dict, key);
    }

    /** find, which holds also after an erase that went wrong. */
    method Find(key: K) returns (r: bool)
      requires Sound()
      ensures r <==> key in dict
    {
      var cur, prev; ghost var at;
      cur, prev, at := Walk(key);
      r := cur != null;
    }

    /** at; the source dereferences null when the key is missing. */
    method At(key: K) returns (v: V)
      requires Sound() && key in dict
      ensures v == dict[key]
    {
      var cur, prev; ghost var at;
      cur, prev, at := Walk(key);
      v := cur.val;
    }

    /** No node is in two places. */
    lemma Distinct(i: nat, j: nat, i': nat, j': nat)
      requires Valid() && i < |chains| && j < |chains[i]| && i' < |chains| && j' < |chains[i']| && (i != i' || j != j')
      ensures chains[i][j] != chains[i'][j']
    {
      hide Placed, Holds;
      KeysDiffer(hash, Rows(), i, j, i', j');
    }

    /** The node is new, at the end of the chain of its hash code. */
    ghost predicate InBack(cs: seq<Chain<K, V>>, cs': seq<Chain<K, V>>, code: nat, node: Hashnode<K, V>) {
      |cs| > 0 && cs' == cs[code % |cs| := cs[code % |cs|] + [node]]
    }

    /** The end of insert and []: a node for a new key at the end of its bucket. */
    method Append(key: K, val: V, prev: Hashnode?<K, V>) returns (node: Hashnode<K, V>)
      requires Valid() && key !in dict && !Overloaded(size, bucketCount) && bucketCount > 0
      requires var c := chains[Bucket(key)]; prev == if c == [] then null else c[|c| - 1]
      modifies this`size, this`chains, this`dict, table, if prev == null then {} else {prev}
      ensures Valid() && fresh(node) && node.key == key && node.val == val
      ensures dict == old(dict)[key := val] && size == old(size) + 1
      ensures InBack(old(chains), chains, hash(key), node)
      ensures Nodes() == old(Nodes()) + {node}
    {
      hide Placed, Holds, Has, NodesOf, Linked, Valid, Sound, LastIn;
      BucketThere();
      Parts();
      var b := Bucket(key);
      ghost var rows := Rows();
      EntryAdded(key, val);
      OnlyLast(b, prev);
      node := Link(b, key, val, prev);
      size := size + 1;
      dict := dict[key := val];
      Whole(rows[b := rows[b] + [(key, val)]]);
    }

    /** One entry more, at the end of its row. */
    lemma EntryAdded(key: K, val: V)
      requires Sound() && bucketCount > 0 && key !in dict
      ensures |dict[key := val]| == |dict| + 1 && Bucket(key) < |Rows()|
      ensures var rows := Rows()[Bucket(key) := Rows()[Bucket(key)] + [(key, val)]];
        Placed(hash, rows) && Holds(hash, rows, dict[key := val])
    {
      hide Placed, Holds, Has;
      HasIff(hash, Rows(), dict, key);
      PlacedAppend(hash, Rows(), key, val);
      HoldsAppend(hash, Rows(), dict, key, val);
    }

    lemma Parts()
      requires Sound()
      ensures AllLinked() && Placed(hash, Rows()) && Holds(hash, Rows(), dict)
    {
    }

    lemma Whole(rows: seq<Row<K, V>>)
      requires bucketCount == |chains| && AllLinked() && Rows() == rows && Placed(hash, rows) && Holds(hash, rows, dict)
      requires size == |dict| && 4 * size <= 3 * bucketCount + 4
      ensures Valid()
    {
    }

    /** Only the last node of bucket b can be prev. */
    ghost predicate LastIn(b: nat, prev: Hashnode?<K, V>)
      requires b < |chains|
      reads this
    {
      forall i, j :: 0 <= i < |chains| && 0 <= j < |chains[i]| && (i != b || j != |chains[b]| - 1) ==>
        chains[i][j] != prev
    }

    lemma OnlyLast(b: nat, prev: Hashnode?<K, V>)
      requires Valid() && b < |chains|
      requires var c := chains[b]; prev == if c == [] then null else c[|c| - 1]
      ensures LastIn(b, prev)
    {
      hide Valid, Sound;
      if chains[b] != [] { LastOnly(b); }
    }

    /** A new node goes behind the last one of bucket b. */
    method Link(b: nat, key: K, val: V, prev: Hashnode?<K, V>) returns (node: Hashnode<K, V>)
      requires AllLinked() && b < |chains|
      requires var c := chains[b]; prev == if c == [] then null else c[|c| - 1]
      requires LastIn(b, prev)
      modifies this`chains, table, if prev == null then {} else {prev}
      ensures AllLinked() && chains == old(chains)[b := old(chains)[b] + [node]]
      ensures fresh(node) && node.key == key && node.val == val
      ensures Nodes() == old(Nodes()) + {node}
      ensures Rows() == old(Rows())[b := old(Rows())[b] + [(key, val)]]
    {
      hide NodesOf;
      ghost var c, chains0, rows := chains[b], chains, Rows();
      assert Linked(table[b], c);
      node := new Hashnode(key, val);
      label before:
      if prev == null {
        table[b] := node;
      } else {
        prev.next := node;
      }
      chains := chains[b := c + [node]];
      forall i | 0 <= i < |chains| && i != b ensures Linked(table[i], chains[i]) {
        assert old@before(Linked(table[i], chains0[i]));
      }
      assert Linked(table[b], c + [node]);
      NodesGrow(chains0, b, node);
      RowsGrew(chains0, rows, b, node);
    }

    /** Linking in a node changes no entry. */
    lemma RowsGrew(chains0: seq<Chain<K, V>>, rows: seq<Row<K, V>>, b: nat, node: Hashnode<K, V>)
      requires |rows| == |chains0| == |chains| && b < |chains| && chains == chains0[b := chains0[b] + [node]]
      requires forall i :: 0 <= i < |chains| ==> |rows[i]| == |chains0[i]|
      requires forall i, j :: 0 <= i < |chains| && 0 <= j < |rows[i]| ==>
        rows[i][j] == (chains0[i][j].key, chains0[i][j].val)
      ensures Rows() == rows[b := rows[b] + [(node.key, node.val)]]
    {
      var rows' := rows[b := rows[b] + [(node.key, node.val)]];
      forall i | 0 <= i < |chains| ensures Rows()[i] == rows'[i] {
        assert RowOf(chains[i]) == rows'[i];
      }
    }

    /** The last node of a bucket is nowhere else. */
    lemma LastOnly(b: nat)
      requires Valid() && b < |chains| && chains[b] != []
      ensures chains[b][|chains[b]| - 1] in Nodes()
      ensures forall i, j :: 0 <= i < |chains| && 0 <= j < |chains[i]| && (i != b || j != |chains[b]| - 1) ==>
        chains[i][j] != chains[b][|chains[b]| - 1]
    {
      hide Placed, Holds;
      forall i, j | 0 <= i < |chains| && 0 <= j < |chains[i]| && (i != b || j != |chains[b]| - 1)
        ensures chains[i][j] != chains[b][|chains[b]| - 1]
      {
        Distinct(i, j, b, |chains[b]| - 1);
      }
    }
  
    /**
      insert: false, and nothing done, when the key is there already; otherwise a node at the end
      of its bucket, after a resize where the load asks for one.
    */
    method Insert(key: K, val: V) returns (r: bool)
      requires Valid()
      modifies this, table, Nodes()
      ensures Valid() && (r <==> key !in old(dict))
      ensures dict == if key in old(dict) then old(dict) else old(dict)[key := val]
      ensures (forall n :: n in Nodes() ==> n in old(Nodes()) || fresh(n)) && (table == old(table) || fresh(table))
      ensures !old(Overloaded(size, bucketCount)) ==> table == old(table) && bucketCount == old(bucketCount)
      ensures if old(4 * size > 3 * bucketCount) then bucketCount > 2 * old(bucketCount) + 1
        else table == old(table) && bucketCount == old(bucketCount)
      ensures r && !old(Overloaded(size, bucketCount)) ==>
        exists node :: node in Nodes() && node.key == key && InBack(old(chains), chains, hash(key), node)
      decreases if Overloaded(size, bucketCount) then 2 else 0, 0
    {
      hide Valid, Sound, NodesOf;
      if Overloaded(size, bucketCount) {
        Resize();
      }
      BucketThere();
      var cur, prev; ghost var at;
      cur, prev, at := Walk(key);
      if cur != null {
        return false;
      }
      if prev != null { LastOnly(Bucket(key)); }
      var node := Append(key, val, prev);
      return true;
    }

    /** operator[]: the node of the key, which is made when it is missing. */
    method Slot(key: K) returns (node: Hashnode<K, V>)
      requires Valid()
      modifies this, table, Nodes()
      ensures Valid() && node in Nodes() && node.key == key
      ensures dict == if key in old(dict) then old(dict) else old(dict)[key := initial]
      ensures (forall n :: n in Nodes() ==> n in old(Nodes()) || fresh(n)) && (table == old(table) || fresh(table))
    {
      hide Valid, Sound, NodesOf;
      BucketThere();
      if Overloaded(size, bucketCount) {
        Resize();
      }
      BucketThere();
      var cur, prev; ghost var at;
      cur, prev, at := Walk(key);
      if cur != null {
        InNodes(Bucket(key), at);
        return cur;
      }
      if prev != null { LastOnly(Bucket(key)); }
      node := Append(key, initial, prev);
    }

    /**
      resize: the least prime above 2n + 1 buckets, and the same map.  That its
      inserts never resize again is what makes the two methods terminate.
    */
    method Resize()
      requires Valid() && Overloaded(size, bucketCount)
      modifies this, table
      ensures Valid() && dict == old(dict) && !Overloaded(size, bucketCount)
      ensures Prime(bucketCount) && bucketCount > 2 * old(bucketCount) + 1
      ensures forall p :: 2 * old(bucketCount) + 1 < p < bucketCount ==> !Prime(p)
      ensures fresh(table) && fresh(Nodes())
      decreases 1, 2
    {
      hide Valid, Sound, NodesOf, Prime, RowOf, Linked, Covers;
      ghost var chains0, dict0 := chains, dict;
      BucketThere();
      RowsWithin();
      var oldTable := table;
      var newCount := NextPrime(bucketCount * 2 + 1);
      Restart(newCount);
      CopyAll(oldTable, chains0, dict0);
      BucketThere();
    }

    /** A new table of n buckets, all empty. */
    method Restart(n: nat)
      requires n > 0
      modifies this
      ensures Valid() && fresh(table) && bucketCount == n && dict == map[] && Nodes() == {}
    {
      table := new Hashnode?<K, V>[n](_ => null);
      bucketCount, size := n, 0;
      chains, dict := seq(n, _ => []), map[];
      EmptyValid();
    }

    /** The outer loop of resize */
    method CopyAll(oldTable: array<Hashnode?<K, V>>, ghost chains0: seq<Chain<K, V>>, ghost dict0: map<K, V>)
      requires Valid() && dict == map[] && Nodes() == {} && oldTable != table && oldTable.Length == |chains0|
      requires forall k :: 0 <= k < |chains0| ==> Linked(oldTable[k], chains0[k]) && Within(RowOf(chains0[k]), dict0)
      requires Covers(chains0, dict0.Keys) && 4 * |dict0| <= 3 * bucketCount
      modifies this, table, oldTable
      ensures Valid() && dict == dict0 && table == old(table) && bucketCount == old(bucketCount) && fresh(Nodes())
      decreases 1, 1
    {
      hide Valid, Sound, NodesOf, RowOf, Linked, Covers, Seen, Copied;
      NothingYet(chains0, dict, dict0);
      var i := 0;
      while i < oldTable.Length
        invariant 0 <= i <= |chains0| && Valid() && table == old(table) && bucketCount == old(bucketCount)
        invariant forall n :: n in Nodes() ==> fresh(n)
        invariant Copied(dict, dict0) && Seen(chains0, i, dict.Keys)
        invariant forall k :: i <= k < |chains0| ==> Linked(oldTable[k], chains0[k]) && Within(RowOf(chains0[k]), dict0)
      {
        ghost var ks := dict.Keys;
        CopyChain(oldTable[i], chains0[i], dict0);
        SeenMore(chains0, i, ks, dict.Keys);
        label before:
        oldTable[i] := null;
        StillValid@before();
        i := i + 1;
      }
      SameMap(chains0, dict, dict0);
    }

    /** Writing elsewhere does not matter. */
    twostate lemma StillValid()
      requires old(Valid()) && unchanged(this) && unchanged(table) && forall n :: n in Nodes() ==> unchanged(n)
      ensures Valid()
    {
      hide Placed, Holds, NodesOf, Linked, Rows;
      AllInNodes();
      forall i | 0 <= i < |chains| ensures Linked(table[i], chains[i]) {
        assert old(Linked(table[i], chains[i]));
      }
      forall i | 0 <= i < |chains| ensures Rows()[i] == old(Rows()[i]) {
        assert RowOf(chains[i]) == old(RowOf(chains[i]));
      }
      assert Rows() == old(Rows());
    }

    lemma AllInNodes()
      ensures forall i, j :: 0 <= i < |chains| && 0 <= j < |chains[i]| ==> chains[i][j] in Nodes()
    {
    }

    lemma NothingYet(chains: seq<Chain<K, V>>, d: map<K, V>, d0: map<K, V>)
      requires d == map[]
      ensures Copied(d, d0) && Seen(chains, 0, d.Keys)
    {
    }

    /** The inner loop of resize: one old chain goes into the new table. */
    method CopyChain(head: Hashnode?<K, V>, ghost c: Chain<K, V>, ghost dict0: map<K, V>)
      requires Valid() && Linked(head, c) && Within(RowOf(c), dict0) && forall j :: 0 <= j < |c| ==> c[j] !in Nodes()
      requires Copied(dict, dict0) && 4 * |dict0| <= 3 * bucketCount
      modifies this, table, Nodes()
      ensures Valid() && table == old(table) && bucketCount == old(bucketCount)
      ensures forall n :: n in Nodes() ==> n in old(Nodes()) || fresh(n)
      ensures Copied(dict, dict0) && old(dict).Keys <= dict.Keys && forall j :: 0 <= j < |c| ==> c[j].key in dict
      decreases 1, 0
    {
      hide Valid, Sound, NodesOf, RowOf;
      var cur := head;
      ghost var at := 0;
      while cur != null
        invariant Valid() && table == old(table) && bucketCount == old(bucketCount)
        invariant forall n :: n in Nodes() ==> n in old(Nodes()) || fresh(n)
        invariant forall j :: 0 <= j < |c| ==> c[j] !in Nodes()
        invariant Linked(head, c) && Within(RowOf(c), dict0) && at <= |c| && cur == if at < |c| then c[at] else null
        invariant Copied(dict, dict0) && old(dict).Keys <= dict.Keys && forall j :: 0 <= j < at ==> c[j].key in dict
        decreases |c| - at
      {
        Smaller(dict, dict0);
        BucketThere();
        RowAt(c, at, dict0);
        var r := Insert(cur.key, cur.val);
        cur := cur.next;
        at := at + 1;
      }
    }

    lemma Smaller(d: map<K, V>, d0: map<K, V>)
      requires Copied(d, d0)
      ensures |d| <= |d0|
    {
      assert d.Keys <= d0.Keys;
      Subset(d.Keys, d0.Keys);
      assert |d| == |d.Keys| && |d0| == |d0.Keys|;
    }

    lemma {:induction false} Subset(a: set<K>, b: set<K>)
      requires a <= b
      ensures |a| <= |b|
      decreases a
    {
      if a != {} {
        var x :| x in a;
        Subset(a - {x}, b - {x});
      }
    }

    lemma RowAt(c: Chain<K, V>, j: nat, d: map<K, V>)
      requires j < |c| && Within(RowOf(c), d)
      ensures c[j].key in d && d[c[j].key] == c[j].val
    {
      assert RowOf(c)[j] == (c[j].key, c[j].val);
    }

    lemma InNodes(i: nat, j: nat)
      requires i < |chains| && j < |chains[i]|
      ensures chains[i][j] in Nodes()
    {
    }

    lemma RowsWithin()
      requires Valid()
      ensures forall i :: 0 <= i < |chains| ==> Linked(table[i], chains[i]) && Within(RowOf(chains[i]), dict)
      ensures Covers(chains, dict.Keys)
    {
      hide Placed, Linked, RowOf;
      forall i | 0 <= i < |chains| ensures Within(RowOf(chains[i]), dict) {
        assert Within(Rows()[i], dict);
      }
      forall k | k in dict ensures Occurs(chains, k) {
        Finds(k);
      }
    }

    ghost predicate Occurs(chains: seq<Chain<K, V>>, k: K) {
      exists i, j :: 0 <= i < |chains| && 0 <= j < |chains[i]| && chains[i][j].key == k
    }

    ghost predicate Covers(chains: seq<Chain<K, V>>, ks: set<K>) {
      forall k :: k in ks ==> Occurs(chains, k)
    }

    lemma Finds(k: K)
      requires Valid() && k in dict
      ensures Occurs(chains, k)
    {
      hide Placed, AllLinked, Within;
      var b := hash(k) % |chains|;
      assert Has(Rows()[b], k);
      var j :| 0 <= j < |Rows()[b]| && Rows()[b][j].0 == k;
      assert chains[b][j].key == k;
    }

    /** With every chain copied, nothing is missing and nothing is new. */
    lemma SameMap(chains: seq<Chain<K, V>>, d: map<K, V>, d0: map<K, V>)
      requires Covers(chains, d0.Keys) && Seen(chains, |chains|, d.Keys) && Copied(d, d0)
      ensures d == d0
    {
      forall k | k in d0 ensures k in d {
        assert Occurs(chains, k);
        var i, j :| 0 <= i < |chains| && 0 <= j < |chains[i]| && chains[i][j].key == k;
      }
    }

    /** Nodes of the old table are not nodes of the new one. */
    lemma SeenMore(chains: seq<Chain<K, V>>, n: nat, ks: set<K>, ks': set<K>)
      requires Seen(chains, n, ks) && ks <= ks' && n < |chains| && forall j :: 0 <= j < |chains[n]| ==>
        chains[n][j].key in ks'
      ensures Seen(chains, n + 1, ks')
    {
    }

    /** A new table is the empty map. */
    lemma EmptyValid()
      requires table.Length == bucketCount == |chains| > 0 && size == 0 && dict == map[]
      requires forall i :: 0 <= i < |chains| ==> chains[i] == [] && table[i] == null
      ensures Valid() && Nodes() == {}
    {
    }

    ghost predicate Copied(d: map<K, V>, d0: map<K, V>) {
      forall k :: k in d ==> k in d0 && d[k] == d0[k]
    }

    /** The keys of the first n chains are in ks. */
    ghost predicate Seen(chains: seq<Chain<K, V>>, n: nat, ks: set<K>) {
      forall i, j :: 0 <= i < n && i < |chains| && 0 <= j < |chains[i]| ==> chains[i][j].key in ks
    }
  
    /** An assignment through the reference that [] returns. */
    method SetVal(node: Hashnode<K, V>, v: V)
      requires Valid() && node in Nodes()
      modifies node, this`dict
      ensures Valid() && dict == old(dict)[node.key := v]
    {
      hide Placed, Holds, NodesOf, Has;
      ghost var i, j := Where(node);
      ghost var rows, c := Rows(), chains[i];
      Elsewhere(i, j);
      UpdateRow(rows, dict, i, j, v);
      label before:
      node.val := v;
      dict := dict[node.key := v];
      forall x | 0 <= x < |chains| ensures Linked(table[x], chains[x]) {
        assert old@before(Linked(table[x], chains[x]));
      }
      RowsUpdated(rows, i, j, v);
    }

    /** map[key] = v */
    method Put(key: K, v: V)
      requires Valid()
      modifies this, table, Nodes()
      ensures Valid() && dict == old(dict)[key := v]
    {
      hide Valid, Sound, NodesOf;
      var node := Slot(key);
      SetVal(node, v);
    }

    lemma Where(node: Hashnode<K, V>) returns (i: nat, j: nat)
      requires node in Nodes()
      ensures i < |chains| && j < |chains[i]| && chains[i][j] == node
    {
      i, j :| 0 <= i < |chains| && 0 <= j < |chains[i]| && chains[i][j] == node;
    }

    lemma Elsewhere(i: nat, j: nat)
      requires Valid() && i < |chains| && j < |chains[i]|
      ensures forall x, y :: 0 <= x < |chains| && 0 <= y < |chains[x]| && (x != i || y != j) ==>
        chains[x][y] != chains[i][j]
    {
      hide Placed, Holds;
      forall x, y | 0 <= x < |chains| && 0 <= y < |chains[x]| && (x != i || y != j)
        ensures chains[x][y] != chains[i][j]
      {
        Distinct(x, y, i, j);
      }
    }

    lemma UpdateRow(rows: seq<Row<K, V>>, d: map<K, V>, i: nat, j: nat, v: V)
      requires Placed(hash, rows) && Holds(hash, rows, d) && i < |rows| && j < |rows[i]|
      ensures var row := rows[i][j := (rows[i][j].0, v)];
        Placed(hash, rows[i := row]) && Holds(hash, rows[i := row], d[rows[i][j].0 := v]) && rows[i][j].0 in d
    {
      var row, key := rows[i][j := (rows[i][j].0, v)], rows[i][j].0;
      assert Within(rows[i], d);
      PlacedSet(hash, rows, i, row);
      forall k | k in d[key := v] && hash(k) % |rows| == i ensures Has(row, k) {
        assert Has(rows[i], k);
        var y :| 0 <= y < |rows[i]| && rows[i][y].0 == k;
        assert row[y].0 == k;
      }
      HoldsSet(hash, rows, d, i, row, d[key := v]);
    }

    lemma RowsUpdated(rows: seq<Row<K, V>>, i: nat, j: nat, v: V)
      requires |rows| == |chains| && i < |chains| && j < |chains[i]| && chains[i][j].val == v
      requires forall x :: 0 <= x < |chains| ==> |rows[x]| == |chains[x]|
      requires forall x, y :: 0 <= x < |chains| && 0 <= y < |rows[x]| && (x != i || y != j) ==>
        rows[x][y] == (chains[x][y].key, chains[x][y].val)
      requires rows[i][j].0 == chains[i][j].key
      ensures Rows() == rows[i := rows[i][j := (rows[i][j].0, v)]]
    {
      var rows' := rows[i := rows[i][j := (rows[i][j].0, v)]];
      forall x | 0 <= x < |chains| ensures Rows()[x] == rows'[x] {
        assert RowOf(chains[x]) == rows'[x];
      }
    }
  
    method Clear()
      requires Valid()
      modifies this, table
      ensures Valid() && dict == map[] && bucketCount == old(bucketCount)
    {
      hide Valid, Sound, NodesOf, Linked, AllLinked;
      BucketThere();
      for i := 0 to bucketCount
        invariant bucketCount == old(bucketCount) && table == old(table) && table.Length == bucketCount > 0
        invariant forall k :: 0 <= k < i ==> table[k] == null
      {
        table[i] := null;
      }
      size := 0;
      chains, dict := seq(bucketCount, _ => []), map[];
      EmptyValid();
    }

    /** What erase gets wrong: it finds the key at the head of a bucket that holds more. */
    ghost predicate HeadOfMore(key: K)
      requires bucketCount == |chains| > 0
      reads this
    {
      |chains[Bucket(key)]| > 1 && chains[Bucket(key)][0].key == key
    }

    /**
      erase removes the key and nothing else exactly when the key is not at the head of a longer
      bucket; there the whole bucket is lost, and size no longer counts the entries.
    */
    method Erase(key: K) returns (r: bool)
      requires Valid() && bucketCount > 0
      modifies this, table, Nodes()
      ensures Sound() && (r <==> key in old(dict))
      ensures !r ==> Valid() && dict == old(dict)
      ensures r ==> (dict == old(dict) - {key} <==> !old(HeadOfMore(key))) && (Valid() <==> !old(HeadOfMore(key)))
      ensures r && old(HeadOfMore(key)) ==> dict == Without(old(dict), old(bucketCount), old(Bucket(key)))
      ensures r ==> size == old(size) - 1
    {
      hide Placed, Holds, NodesOf, AllLinked, Rows, Has;
      var cur, prev; ghost var at;
      BucketThere();
      cur, prev, at := Walk(key);
      if cur == null {
        return false;
      }
      var b := Bucket(key);
      ghost var rows, dict0 := Rows(), dict;
      ghost var c := chains[b];
      Lengths(b);
      InBucket(b, at);
      if prev == null {
        DropRow(rows, dict0, b, key);
        DropBucket(b, Without(dict, bucketCount, b));
      } else {
        SkipRow(rows, dict0, b, at, key);
        InNodes(b, at - 1);
        Elsewhere(b, at - 1);
        Skip(b, at, prev, cur, dict - {key});
      }
      return true;
    }

    /** The map without the keys of one bucket */
    ghost function Without(d: map<K, V>, n: nat, b: nat): map<K, V>
      requires n > 0
    {
      map k | k in d && hash(k) % n != b :: d[k]
    }

    lemma Lengths(b: nat)
      requires Valid() && b < |chains|
      ensures |Rows()| == |chains| && |Rows()[b]| == |chains[b]|
      ensures forall j :: 0 <= j < |chains[b]| ==> Rows()[b][j] == (chains[b][j].key, chains[b][j].val)
    {
    }

    /** A key is at one place of its bucket. */
    lemma InBucket(b: nat, j: nat)
      requires Valid() && b < |chains| && j < |chains[b]|
      ensures |chains[b]| > 0 && (chains[b][0].key == chains[b][j].key <==> j == 0)
    {
      if j > 0 { KeysDiffer(hash, Rows(), b, 0, b, j); }
    }

    lemma DropSizes(rows: seq<Row<K, V>>, d: map<K, V>, b: nat, key: K)
      requires Placed(hash, rows) && Holds(hash, rows, d) && b < |rows| && |rows[b]| > 0 && rows[b][0].0 == key
      ensures var d' := Without(d, |rows|, b);
        && key in d
        && (|rows[b]| == 1 ==> d' == d - {key} && |d'| == |d| - 1)
        && (|rows[b]| > 1 ==> d' != d - {key} && |d'| < |d| - 1)
    {
      hide Placed, Holds;
      var d' := Without(d, |rows|, b);
      RowKeys(rows, d, b, 0);
      Removed(d, key);
      if |rows[b]| == 1 {
        forall k | k in d && hash(k) % |rows| == b ensures k == key {
          HasIff(hash, rows, d, k);
        }
        assert d' == d - {key};
      } else {
        RowKeys(rows, d, b, 1);
        var other := rows[b][1].0;
        Removed(d - {key}, other);
        SubMap(d', d - {key} - {other});
      }
    }

    /** An emptied bucket: right for the map without the keys of that bucket. */
    lemma DropRow(rows: seq<Row<K, V>>, d: map<K, V>, b: nat, key: K)
      requires Placed(hash, rows) && Holds(hash, rows, d) && b < |rows| && |rows[b]| > 0 && rows[b][0].0 == key
      ensures var d' := Without(d, |rows|, b);
        && Placed(hash, rows[b := []]) && Holds(hash, rows[b := []], d') && key in d
        && (|rows[b]| == 1 ==> d' == d - {key} && |d'| == |d| - 1)
        && (|rows[b]| > 1 ==> d' != d - {key} && |d'| < |d| - 1)
    {
      var d', row := Without(d, |rows|, b), [];
      PlacedSet(hash, rows, b, row);
      HoldsSet(hash, rows, d, b, row, d');
      DropSizes(rows, d, b, key);
    }

    lemma RowKeys(rows: seq<Row<K, V>>, d: map<K, V>, b: nat, j: nat)
      requires Placed(hash, rows) && Holds(hash, rows, d) && b < |rows| && j < |rows[b]|
      ensures rows[b][j].0 in d && hash(rows[b][j].0) % |rows| == b
      ensures forall k :: 0 <= k < |rows[b]| && k != j ==> rows[b][k].0 != rows[b][j].0
    {
      assert Within(rows[b], d);
    }

    lemma Removed(d: map<K, V>, key: K)
      requires key in d
      ensures |d - {key}| == |d| - 1
    {
      assert d == (d - {key})[key := d[key]];
    }

    lemma SubMap(d: map<K, V>, e: map<K, V>)
      requires d.Keys <= e.Keys
      ensures |d| <= |e|
    {
      Subset(d.Keys, e.Keys);
      assert |d| == |d.Keys| && |e| == |e.Keys|;
    }

    /** A bucket without its at-th entry. */
    lemma SkipRow(rows: seq<Row<K, V>>, d: map<K, V>, b: nat, at: nat, key: K)
      requires Placed(hash, rows) && Holds(hash, rows, d) && b < |rows| && at < |rows[b]| && rows[b][at].0 == key
      ensures var row, d' := rows[b][..at] + rows[b][at + 1..], d - {key};
        Placed(hash, rows[b := row]) && Holds(hash, rows[b := row], d') && |d'| == |d| - 1
    {
      hide Placed, Holds;
      var row, d' := rows[b][..at] + rows[b][at + 1..], d - {key};
      RowKeys(rows, d, b, at);
      Removed(d, key);
      forall j | 0 <= j < |row|
        ensures hash(row[j].0) % |rows| == b && row[j].0 in d' && d'[row[j].0] == row[j].1
        ensures forall j' :: j < j' < |row| ==> row[j].0 != row[j'].0
      {
        SkippedKey(rows, d, b, at, j);
      }
      PlacedSet(hash, rows, b, row);
      forall k | k in d' && hash(k) % |rows| == b ensures Has(row, k) {
        KeptKey(rows, d, b, at, k);
      }
      HoldsSet(hash, rows, d, b, row, d');
    }

    lemma SkippedKey(rows: seq<Row<K, V>>, d: map<K, V>, b: nat, at: nat, j: nat)
      requires Placed(hash, rows) && Holds(hash, rows, d) && b < |rows| && at < |rows[b]| && j < |rows[b]| - 1
      ensures var row, key := rows[b][..at] + rows[b][at + 1..], rows[b][at].0;
        && hash(row[j].0) % |rows| == b && row[j].0 != key && row[j].0 in d && d[row[j].0] == row[j].1
        && forall j' :: j < j' < |row| ==> row[j].0 != row[j'].0
    {
      assert Within(rows[b], d);
    }

    lemma KeptKey(rows: seq<Row<K, V>>, d: map<K, V>, b: nat, at: nat, k: K)
      requires Holds(hash, rows, d) && b < |rows| && at < |rows[b]| && k in d && k != rows[b][at].0
      requires hash(k) % |rows| == b
      ensures Has(rows[b][..at] + rows[b][at + 1..], k)
    {
      var row := rows[b][..at] + rows[b][at + 1..];
      assert Has(rows[b], k);
      var j :| 0 <= j < |rows[b]| && rows[b][j].0 == k;
      assert row[if j < at then j else j - 1].0 == k;
    }

    /** table[b] = nullptr */
    method DropBucket(b: nat, ghost d: map<K, V>)
      requires AllLinked() && b < |chains| && size > 0
      modifies this`chains, this`size, this`dict, table
      ensures size == old(size) - 1 && dict == d
      ensures AllLinked() && chains == old(chains)[b := []] && Rows() == old(Rows())[b := []]
    {
      hide NodesOf;
      ghost var chains0, rows := chains, Rows();
      label before:
      table[b] := null;
      chains := chains[b := []];
      size, dict := size - 1, d;
      forall i | 0 <= i < |chains| && i != b ensures Linked(table[i], chains[i]) {
        assert old@before(Linked(table[i], chains0[i]));
      }
      RowsSkipped(chains0, rows, b, [], []);
    }

    /** prevNode->next = curNode->next */
    method Skip(b: nat, ghost at: nat, prev: Hashnode<K, V>, cur: Hashnode<K, V>, ghost d: map<K, V>)
      requires AllLinked() && b < |chains| && size > 0 && 0 < at < |chains[b]| && chains[b][at - 1] == prev
      requires chains[b][at] == cur
      requires forall i, j :: 0 <= i < |chains| && 0 <= j < |chains[i]| && (i != b || j != at - 1) ==>
        chains[i][j] != prev
      modifies this`chains, this`size, this`dict, prev
      ensures size == old(size) - 1 && dict == d
      ensures AllLinked() && chains == old(chains)[b := old(chains)[b][..at] + old(chains)[b][at + 1..]]
      ensures Rows() == old(Rows())[b := old(Rows())[b][..at] + old(Rows())[b][at + 1..]]
    {
      hide NodesOf;
      ghost var chains0, rows, c := chains, Rows(), chains[b];
      ghost var c' := c[..at] + c[at + 1..];
      assert Linked(table[b], c);
      label before:
      prev.next := cur.next;
      chains := chains[b := c'];
      size, dict := size - 1, d;
      forall i | 0 <= i < |chains| && i != b ensures Linked(table[i], chains[i]) {
        assert old@before(Linked(table[i], chains0[i]));
      }
      assert Linked(table[b], c');
      RowsSkipped(chains0, rows, b, c', rows[b][..at] + rows[b][at + 1..]);
    }

    lemma RowsSkipped(chains0: seq<Chain<K, V>>, rows: seq<Row<K, V>>, b: nat, c: Chain<K, V>, row: Row<K, V>)
      requires |rows| == |chains0| == |chains| && b < |chains| && chains == chains0[b := c]
      requires forall i :: 0 <= i < |chains| ==> |rows[i]| == |chains0[i]|
      requires forall i, j :: 0 <= i < |chains| && 0 <= j < |rows[i]| ==>
        rows[i][j] == (chains0[i][j].key, chains0[i][j].val)
      requires |row| == |c| && forall j :: 0 <= j < |c| ==> row[j] == (c[j].key, c[j].val)
      ensures Rows() == rows[b := row]
    {
      var rows' := rows[b := row];
      forall i | 0 <= i < |chains| ensures Rows()[i] == rows'[i] {
        assert RowOf(chains[i]) == rows'[i];
      }
    }
  }

  /** A table of 101 buckets, with key 0 alone. */
  method OneKey() returns (m: Hashmap<nat, nat>)
    ensures fresh(m) && fresh(m.table) && fresh(m.Nodes()) && m.Valid() && m.bucketCount == |m.chains| == 101
    ensures m.hash(0) == 0 && m.hash(101) == 101 && m.size == 1 && m.dict == map[0 := 7]
    ensures |m.chains[0]| > 0 && m.chains[0][0].key == 0
  {
    hide Hashmap.Valid, Hashmap.Sound;
    m := new Hashmap<nat, nat>(k => k, 0);
    m.BucketThere();
    var ok := m.Insert(0, 7);
    m.BucketThere();
  }

  /** Keys 0 and 101 share a bucket. */
  method TwoKeys() returns (m: Hashmap<nat, nat>)
    ensures fresh(m) && fresh(m.table) && fresh(m.Nodes()) && m.Valid() && m.bucketCount == |m.chains| == 101
    ensures m.hash(0) == 0 && m.hash(101) == 101
    ensures m.dict == map[0 := 7, 101 := 8] && m.HeadOfMore(0)
  {
    hide Hashmap.Valid, Hashmap.Sound;
    m := OneKey();
    var ok := m.Insert(101, 8);
    m.BucketThere();
  }

  /** Erasing 0 then loses 101 as well, and size still counts it. */
  method EraseLoses() returns (m: Hashmap<nat, nat>, before: bool, after: bool)
    ensures before && !after && m.dict == map[] && m.size == 1 && !m.Valid()
  {
    hide Hashmap.Valid, Hashmap.Sound;
    m := TwoKeys();
    m.BucketThere();
    before := m.Find(101);
    var ok := m.Erase(0);
    after := m.Find(101);
    assert !m.Valid() by { m.WrongSize(); }
  }
}
