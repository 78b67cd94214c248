/**
 The string dictionary: an open-addressing table with cached hashes that grows, or is rebuilt
 in place when tombstones pile up.
 */
module Dictionary {
  import opened Bits
  import opened Probing
  import opened HashTable
  import opened DictionaryLoad

  const DEFAULT_BUCKET_COUNT: nat := 16

  lemma DefaultIsPow2()
    ensures IsPow2(DEFAULT_BUCKET_COUNT)
  {
    assert Pow2(4) == DEFAULT_BUCKET_COUNT;
  }

  class Table<V(==, !new)> {
    var table: array<Bucket<V>>  // numBuckets buckets and a sentinel; no bucket at all before the first use
    var hashes: array<nat>
    var numBuckets: nat
    var numItems: nat
    var numTombstones: nat
    ghost var rank: map<Key, nat>

    ghost predicate Allocated()
      reads this, table, hashes
    {
      && 0 < numBuckets
      && table.Length == numBuckets + 1
      && hashes.Length == numBuckets
      && table[numBuckets].Sentinel?
      && TableInv(table[..numBuckets], hashes[..], rank)
      && numItems == |rank| == CountEntries(table[..numBuckets])
      && numTombstones == CountTombstones(table[..numBuckets])
    }

    ghost predicate Valid()
      reads this, table, hashes
    {
      if numBuckets == 0 then table.Length == 0 && numItems == numTombstones == 0 && rank == map[]
      else Allocated() && Light(numItems, numTombstones, numBuckets)
    }

    ghost function Map(): map<Key, V>
      reads this, table, hashes
      requires numBuckets == 0 || Allocated()
    {
      if numBuckets == 0 then map[] else Contents(table[..numBuckets], rank)
    }

    constructor ()
      ensures Valid() && Map() == map[] && numBuckets == 0
    {
      table := new Bucket<V>[0];
      hashes := new nat[0];
      numBuckets, numItems, numTombstones := 0, 0, 0;
      rank := map[];
    }

    /** The bucket of key, or -1. */
    method FindKey(key: Key) returns (bucket: int)
      requires Valid()
      ensures key !in Map() ==> bucket == -1
      ensures key in Map() ==> 0 <= bucket < numBuckets && table[bucket] == Entry(key, Map()[key])
    {
      if numBuckets == 0 {
        return -1;
      }
      var hash := HashString(key);
      bucket := SearchKey(table, hashes, numBuckets, rank, key, hash);
    }

    static method SearchKey(table: array<Bucket<V>>, hashes: array<nat>, n: nat, ghost rank: map<Key, nat>,
                            key: Key, hash: nat)
      returns (bucket: int)
      requires table.Length == n + 1 && hashes.Length == n && TableInv(table[..n], hashes[..], rank)
      requires CountEntries(table[..n]) + CountTombstones(table[..n]) < n && hash == Hash(key)
      ensures Found(table[..n], rank, key, bucket)
    {
      var b := FirstBucket(hash, n);
      var probe := 1;
      ghost var t := table[..n];
      ghost var hs := hashes[..];
      assert |t| == n;
      ghost var last := SearchStarts(t, hs, rank, key);
      while !table[b].Empty?
        invariant Searching(t, key, probe, b, last)
        decreases last + 1 - probe
      {
        SearchStep(t, hs, rank, key, probe, b, last);
        if table[b].Entry? && hashes[b] == hash && table[b].key == key {
          return b;
        }
        b := NextBucket(b, probe, n);
        probe := probe + 1;
      }
      AbsentAtEmpty(t, hs, rank, key, probe, b, last);
      bucket := -1;
    }

    /** Buckets that are all empty, and the sentinel that stops iteration. */
    static method AllocTable(n: nat) returns (table: array<Bucket<V>>, hashes: array<nat>)
      ensures fresh(table) && fresh(hashes) && table.Length == n + 1 && hashes.Length == n
      ensures table[n].Sentinel? && forall b :: 0 <= b < n ==> table[b].Empty?
    {
      table := new Bucket<V>[n + 1](i => if i == n then Sentinel else Empty);
      hashes := new nat[n](i => 0);
    }

    /** Sets the table up with size buckets, or the default number. */
    method Init(size: nat)
      requires size == 0 || IsPow2(size)
      modifies this
      ensures Valid() && Map() == map[] && fresh(table) && fresh(hashes)
      ensures numBuckets == (if size == 0 then 16 else size)
      ensures numItems == 0 && numTombstones == 0
    {
      var n := if size == 0 then DEFAULT_BUCKET_COUNT else size;
      DefaultIsPow2();
      numItems, numTombstones := 0, 0;
      table, hashes := AllocTable(n);
      numBuckets := n;
      rank := map[];
      EmptyTable(table[..n], hashes[..]);
    }

    /** The bucket that holds key, or one that can take it; its hash is stored in the latter case. */
    method LookupBucketFor(key: Key) returns (bucket: nat, ghost r: nat)
      requires Valid()
      modifies this, hashes
      ensures Valid() && Allocated() && Map() == old(Map()) && rank == old(rank)
      ensures numItems == old(numItems) && numTombstones == old(numTombstones)
      ensures Offered(table[..numBuckets], rank, key, bucket, r)
      ensures key !in rank ==> hashes[bucket] == Hash(key)
      ensures if old(numBuckets) > 0 then table == old(table) && hashes == old(hashes) && numBuckets == old(numBuckets)
              else fresh(table) && fresh(hashes) && numBuckets == DEFAULT_BUCKET_COUNT
    {
      if numBuckets == 0 {
        DefaultIsPow2();
        Init(DEFAULT_BUCKET_COUNT);
      }
      var hash := HashString(key);
      bucket, r := SearchBucketFor(table, hashes, numBuckets, rank, key, hash);
      if !table[bucket].Entry? {
        StoreHash(bucket, hash);
      }
    }

    method StoreHash(bucket: nat, hash: nat)
      requires Allocated() && bucket < numBuckets && !table[bucket].Entry?
      modifies hashes
      ensures Allocated() && hashes[bucket] == hash
    {
      HashElsewhere(table[..numBuckets], hashes[..], rank, bucket, hash);
      ghost var hs := hashes[..];
      hashes[bucket] := hash;
      assert hashes[..] == hs[bucket := hash];
    }

    static method SearchBucketFor(table: array<Bucket<V>>, hashes: array<nat>, n: nat, ghost rank: map<Key, nat>,
                                  key: Key, hash: nat)
      returns (bucket: nat, ghost r: nat)
      requires table.Length == n + 1 && hashes.Length == n && TableInv(table[..n], hashes[..], rank)
      requires CountEntries(table[..n]) + CountTombstones(table[..n]) < n && hash == Hash(key)
      ensures Offered(table[..n], rank, key, bucket, r)
      ensures bucket < n && (Holds(table[bucket], key) <==> key in rank)
    {
      var b := FirstBucket(hash, n);
      var probe := 1;
      var firstTombstone: int := -1;
      r := 0;
      ghost var t := table[..n];
      ghost var hs := hashes[..];
      ghost var last := SearchStarts(t, hs, rank, key);
      while !table[b].Empty?
        invariant Searching(t, key, probe, b, last)
        invariant FirstTombstone(t, key, probe, firstTombstone, r)
        decreases last + 1 - probe
      {
        SearchStep(t, hs, rank, key, probe, b, last);
        if table[b].Tombstone? {
          if firstTombstone == -1 {
            firstTombstone, r := b, probe - 1;
          }
        } else if hashes[b] == hash && table[b].Entry? && table[b].key == key {
          return b, r;
        }
        b := NextBucket(b, probe, n);
        probe := probe + 1;
      }
      OfferedAtEmpty(t, hs, rank, key, probe, b, last, firstTombstone, r);
      if firstTombstone == -1 {
        bucket, r := b, probe - 1;
      } else {
        bucket := firstTombstone;
      }
    }

    /** The first bucket on the way of key that is empty. */
    static method FindHole(table: array<Bucket<V>>, n: nat, ghost hs: seq<nat>, ghost rank: map<Key, nat>,
                           ghost key: Key, hash: nat)
      returns (b: nat, ghost r: nat)
      requires table.Length == n + 1 && TableInv(table[..n], hs, rank) && key !in rank && hash == Hash(key)
      requires CountEntries(table[..n]) + CountTombstones(table[..n]) < n
      ensures b == Place(key, r, n) && table[b].Empty? && PathFull(table[..n], key, r)
    {
      b := FirstBucket(hash, n);
      var probe := 1;
      ghost var t := table[..n];
      ghost var last := SearchStarts(t, hs, rank, key);
      while !table[b].Empty?
        invariant Searching(t, key, probe, b, last)
        decreases last + 1 - probe
      {
        SearchStep(t, hs, rank, key, probe, b, last);
        b := NextBucket(b, probe, n);
        probe := probe + 1;
      }
      AbsentAtEmpty(t, hs, rank, key, probe, b, last);
      r := probe - 1;
    }

    /** Puts entry, with its hash, into a new table. */
    static method MoveEntry(table: array<Bucket<V>>, hashes: array<nat>, n: nat, ghost rank: map<Key, nat>,
                            entry: Bucket<V>, hash: nat)
      returns (b: nat, ghost r: nat)
      requires table.Length == n + 1 && hashes.Length == n && TableInv(table[..n], hashes[..], rank)
      requires entry.Entry? && entry.key !in rank && hash == Hash(entry.key)
      requires CountEntries(table[..n]) + CountTombstones(table[..n]) < n
      modifies table, hashes
      ensures b == Place(entry.key, r, n) && old(table[b]).Empty? && old(PathFull(table[..n], entry.key, r))
      ensures table[..] == old(table[..])[b := entry] && hashes[..] == old(hashes[..])[b := hash]
    {
      b, r := FindHole(table, n, hashes[..], rank, entry.key, hash);
      table[b] := entry;
      hashes[b] := hash;
    }

    /** Moves the entry of bucket i, after those of the buckets before; those stay where they were put. */
    static method MoveNext(newTable: array<Bucket<V>>, newHashes: array<nat>, size: nat, ghost newRank: map<Key, nat>,
                           ghost t: seq<Bucket<V>>, ghost hs: seq<nat>, ghost rank: map<Key, nat>, ghost i: nat,
                           entry: Bucket<V>, hash: nat)
      returns (newBucket: nat, ghost moved: map<Key, nat>)
      requires newTable.Length == size + 1 && newHashes.Length == size && TableInv(t, hs, rank) && CountEntries(t) < size
      requires i < |t| && Rebuilt(newTable[..size], newHashes[..], newRank, t, rank, i)
      requires entry == t[i] && entry.Entry? && hash == hs[i]
      modifies newTable, newHashes
      ensures newBucket < size && newTable[newBucket] == entry && newTable[size] == old(newTable[size])
      ensures Rebuilt(newTable[..size], newHashes[..], moved, t, rank, i + 1)
      ensures forall b :: 0 <= b < size && old(newTable[b]).Entry? ==> newTable[b] == old(newTable[b])
    {
      ghost var nt, nhs := newTable[..size], newHashes[..];
      RebuiltRoom(nt, nhs, newRank, t, hs, rank, i);
      ghost var r;
      newBucket, r := MoveEntry(newTable, newHashes, size, newRank, entry, hash);
      RebuiltTakes(nt, nhs, newRank, t, hs, rank, i, r);
      moved := newRank[entry.key := r];
      assert newTable[..size] == nt[newBucket := t[i]];
    }

    /** Puts all the entries of table into newTable; says where the one of bucketNo went. */
    static method MoveEntries(table: array<Bucket<V>>, hashes: array<nat>, n: nat, ghost rank: map<Key, nat>,
                              newTable: array<Bucket<V>>, newHashes: array<nat>, size: nat, bucketNo: nat)
      returns (newBucketNo: nat, ghost newRank: map<Key, nat>)
      requires table.Length == n + 1 && hashes.Length == n && TableInv(table[..n], hashes[..], rank)
      requires newTable != table && newHashes != hashes && IsPow2(size) && CountEntries(table[..n]) < size
      requires newTable.Length == size + 1 && newHashes.Length == size && newTable[size].Sentinel?
      requires forall b :: 0 <= b < size ==> newTable[b].Empty?
      requires bucketNo < n && table[bucketNo].Entry?
      modifies newTable, newHashes
      ensures newTable[size].Sentinel?
      ensures Rebuilt(newTable[..size], newHashes[..], newRank, table[..n], rank, n)
      ensures newBucketNo < size && newTable[newBucketNo] == table[bucketNo]
    {
      newBucketNo := bucketNo;
      newRank := map[];
      ghost var t, hs := table[..n], hashes[..];
      RebuiltFirst(newTable[..size], newHashes[..], t, hs, rank);
      for i := 0 to n
        invariant newTable[size].Sentinel?
        invariant Rebuilt(newTable[..size], newHashes[..], newRank, t, rank, i)
        invariant i > bucketNo ==> newBucketNo < size && newTable[newBucketNo] == t[bucketNo]
      {
        if table[i].Entry? {
          var newBucket;
          newBucket, newRank := MoveNext(newTable, newHashes, size, newRank, t, hs, rank, i, table[i], hashes[i]);
          if i == bucketNo {
            newBucketNo := newBucket;
          }
        } else {
          RebuiltSkips(newTable[..size], newHashes[..], newRank, t, hs, rank, i);
        }
      }
    }

    /** Builds a new table of size buckets with the same entries. */
    method NewTable(size: nat, bucketNo: nat)
      returns (newTable: array<Bucket<V>>, newHashes: array<nat>, newBucketNo: nat, ghost newRank: map<Key, nat>)
      requires Allocated() && bucketNo < numBuckets && table[bucketNo].Entry? && numItems < size && IsPow2(size)
      ensures fresh(newTable) && fresh(newHashes)
      ensures newTable.Length == size + 1 && newHashes.Length == size && newTable[size].Sentinel?
      ensures TableInv(newTable[..size], newHashes[..], newRank)
      ensures Contents(newTable[..size], newRank) == Map()
      ensures CountEntries(newTable[..size]) == numItems == |newRank| && CountTombstones(newTable[..size]) == 0
      ensures newBucketNo < size && newTable[newBucketNo] == table[bucketNo]
    {
      newTable, newHashes := AllocTable(size);
      newBucketNo, newRank := MoveEntries(table, hashes, numBuckets, rank, newTable, newHashes, size, bucketNo);
      RebuiltAll(newTable[..size], newHashes[..], newRank, table[..numBuckets], hashes[..], rank);
    }

    /** Makes the new table the table. */
    method Adopt(newTable: array<Bucket<V>>, newHashes: array<nat>, newSize: nat, ghost newRank: map<Key, nat>)
      requires newTable.Length == newSize + 1 && newHashes.Length == newSize && newTable[newSize].Sentinel?
      requires TableInv(newTable[..newSize], newHashes[..], newRank)
      requires CountEntries(newTable[..newSize]) == numItems == |newRank|
      requires CountTombstones(newTable[..newSize]) == 0
      modifies this
      ensures table == newTable && hashes == newHashes && numBuckets == newSize && numTombstones == 0
      ensures Allocated() && numItems == old(numItems)
      ensures Map() == old(Contents(newTable[..newSize], newRank))
    {
      table, hashes, numBuckets, numTombstones, rank := newTable, newHashes, newSize, 0, newRank;
    }

    /** Replaces the table by a new one of newSize buckets with the same entries and no tombstone. */
    method Rebuild(newSize: nat, bucketNo: nat) returns (newBucketNo: nat)
      requires Allocated() && IsPow2(newSize) && numItems < newSize
      requires bucketNo < numBuckets && table[bucketNo].Entry?
      modifies this
      ensures Allocated() && Map() == old(Map()) && numItems == old(numItems)
      ensures numBuckets == newSize && numTombstones == 0 && fresh(table) && fresh(hashes)
      ensures newBucketNo < numBuckets && table[newBucketNo] == old(table[bucketNo])
    {
      ghost var newRank;
      var newTable, newHashes;
      newTable, newHashes, newBucketNo, newRank := NewTable(newSize, bucketNo);
      Adopt(newTable, newHashes, newSize, newRank);
    }

    /** Grows the table, rebuilds it, or leaves it; says where the entry of bucketNo is afterwards. */
    method RehashTable(bucketNo: nat) returns (newBucketNo: nat)
      requires Allocated() && numBuckets <= MAX_BUCKETS
      requires numItems * 4 <= numBuckets * 3 + 4 && numItems + numTombstones <= numBuckets
      requires bucketNo < numBuckets && table[bucketNo].Entry?
      modifies this
      ensures Valid() && Map() == old(Map()) && numItems == old(numItems)
      ensures newBucketNo < numBuckets && table[newBucketNo] == old(table[bucketNo])
      ensures numBuckets == (if numItems * 4 > old(numBuckets) * 3 then 2 * old(numBuckets) else old(numBuckets))
      ensures if numItems * 4 <= old(numBuckets) * 3 && old(numBuckets - numItems - numTombstones) > old(numBuckets) / 8
              then table == old(table) && hashes == old(hashes) && numTombstones == old(numTombstones)
              else fresh(table) && fresh(hashes) && numTombstones == 0
    {
      LoadRestored(numItems, numTombstones, numBuckets);
      KeptExactly(numItems, numTombstones, numBuckets);
      var newSize;
      if TooFull(numItems, numBuckets) {
        newSize := numBuckets * 2;
        Doubled(numBuckets);
      } else if TooFewEmpty(numItems, numTombstones, numBuckets) {
        newSize := numBuckets;
      } else {
        return bucketNo;
      }
      newBucketNo := Rebuild(newSize, bucketNo);
    }

    /** Stores a new entry in the bucket that LookupBucketFor found for it. */
    method StoreEntry(bucket: nat, ghost r: nat, key: Key, value: V)
      requires Allocated() && Light(numItems, numTombstones, numBuckets) && key !in rank
      requires Offered(table[..numBuckets], rank, key, bucket, r) && hashes[bucket] == Hash(key)
      modifies this, table
      ensures table == old(table) && hashes == old(hashes) && numBuckets == old(numBuckets)
      ensures Allocated() && table[bucket] == Entry(key, value) && Map() == old(Map())[key := value]
      ensures numItems == old(numItems) + 1 && numItems + numTombstones <= numBuckets
      ensures numTombstones == old(numTombstones) - (if old(table[bucket]).Tombstone? then 1 else 0)
    {
      ghost var t, hs := table[..numBuckets], hashes[..];
      EntryStored(t, hs, rank, bucket, r, key, value);
      if table[bucket].Tombstone? {
        numTombstones := numTombstones - 1;
      }
      table[bucket] := Entry(key, value);
      assert table[..numBuckets] == t[bucket := Entry(key, value)];
      numItems := numItems + 1;
      rank := rank[key := r];
    }

    /** Stores a new entry and looks after the load; says where the entry is afterwards. */
    method Emplace(hole: nat, ghost r: nat, key: Key, value: V) returns (bucket: nat)
      requires Allocated() && Light(numItems, numTombstones, numBuckets) && numBuckets <= MAX_BUCKETS && key !in rank
      requires Offered(table[..numBuckets], rank, key, hole, r) && hashes[hole] == Hash(key)
      modifies this, table
      ensures Valid() && Map() == old(Map())[key := value] && numItems == old(numItems) + 1
      ensures bucket < numBuckets && table[bucket] == Entry(key, value)
      ensures (table == old(table) || fresh(table)) && (hashes == old(hashes) || fresh(hashes))
      ensures numBuckets == (if numItems * 4 > old(numBuckets) * 3 then 2 * old(numBuckets) else old(numBuckets))
      ensures var t := old(numTombstones - if table[hole].Tombstone? then 1 else 0);
              if numItems * 4 <= old(numBuckets) * 3 && old(numBuckets) - numItems - t > old(numBuckets) / 8
              then table == old(table) && hashes == old(hashes) && numTombstones == t
              else fresh(table) && fresh(hashes) && numTombstones == 0
    {
      StoreEntry(hole, r, key, value);
      bucket := RehashTable(hole);
    }

    /** Adds an entry unless its key is there already; says where the entry of the key is. */
    method TryEmplace(key: Key, value: V) returns (bucket: nat, inserted: bool)
      requires Valid() && numBuckets <= MAX_BUCKETS
      modifies this, table, hashes
      ensures Valid() && inserted == (key !in old(Map()))
      ensures Map() == if inserted then old(Map())[key := value] else old(Map())
      ensures numItems == old(numItems) + if inserted then 1 else 0
      ensures bucket < numBuckets && table[bucket] == Entry(key, Map()[key])
      ensures (table == old(table) || fresh(table)) && (hashes == old(hashes) || fresh(hashes))
      ensures old(numBuckets) > 0 && !inserted ==>
                table == old(table) && numBuckets == old(numBuckets) && numTombstones == old(numTombstones)
      ensures old(numBuckets) > 0 && inserted ==>
                numBuckets == if numItems * 4 > old(numBuckets) * 3 then 2 * old(numBuckets) else old(numBuckets)
      ensures old(numBuckets) > 0 && inserted && numItems * 4 <= old(numBuckets) * 3
              && old(numBuckets - numTombstones) - numItems > old(numBuckets) / 8 ==>
                table == old(table) && numBuckets == old(numBuckets) && old(numTombstones) - 1 <= numTombstones <= old(numTombstones)
    {
      ghost var r;
      bucket, r := LookupBucketFor(key);
      if table[bucket].Entry? {
        return bucket, false;
      }
      bucket := Emplace(bucket, r, key, value);
      inserted := true;
    }

    /** Leaves a tombstone in the bucket of key. */
    method StoreTombstone(bucket: nat, key: Key)
      requires Allocated() && bucket < numBuckets && Holds(table[bucket], key)
      modifies this, table
      ensures table == old(table) && hashes == old(hashes) && numBuckets == old(numBuckets)
      ensures Allocated() && Map() == old(Map()) - {key}
      ensures numItems == old(numItems) - 1 && numTombstones == old(numTombstones) + 1
    {
      ghost var t, hs := table[..numBuckets], hashes[..];
      ghost var t', rank' := EntryRemoved(t, hs, rank, bucket, key);
      table[bucket] := Tombstone;
      numItems := numItems - 1;
      numTombstones := numTombstones + 1;
      rank := rank';
      assert table[..numBuckets] == t' && hashes[..] == hs;
    }

    /** Takes the entry of key out, if there is one. */
    method RemoveKey(key: Key) returns (removed: Bucket<V>)
      requires Valid()
      modifies this, table
      ensures Valid() && table == old(table) && hashes == old(hashes) && numBuckets == old(numBuckets)
      ensures removed == if key in old(Map()) then Entry(key, old(Map())[key]) else Empty
      ensures Map() == old(Map()) - {key}
    {
      var bucket := FindKey(key);
      if bucket == -1 {
        return Empty;
      }
      removed := table[bucket];
      StoreTombstone(bucket, key);
    }

    /** The position of the entry of key, or the end. */
    method Find(key: Key) returns (it: nat)
      requires Valid()
      ensures if key in Map() then it < numBuckets && table[it] == Entry(key, Map()[key]) else it == numBuckets
    {
      var bucket := FindKey(key);
      it := if bucket == -1 then numBuckets else bucket;
    }

    /** Removes the entry of key; says whether there was one. */
    method Erase(key: Key) returns (erased: bool)
      requires Valid()
      modifies this, table
      ensures Valid() && table == old(table) && hashes == old(hashes) && numBuckets == old(numBuckets)
      ensures erased == (key in old(Map())) && Map() == old(Map()) - {key}
    {
      var it := Find(key);
      if it == numBuckets {
        return false;
      }
      var removed := RemoveKey(table[it].key);
      assert removed == old(table[it]);
      erased := true;
    }

    /** Removes all entries, and the tombstones too unless there was no entry. */
    method Clear()
      requires Valid()
      modifies this, table
      ensures Valid() && table == old(table) && hashes == old(hashes) && numBuckets == old(numBuckets)
      ensures Map() == map[] && numItems == 0
      ensures numTombstones == if old(numItems) == 0 then old(numTombstones) else 0
    {
      if numItems == 0 {
        EmptyMap();
        return;
      }
      EmptyBuckets();
      numItems, numTombstones := 0, 0;
      rank := map[];
      EmptyTable(table[..numBuckets], hashes[..]);
    }

    method EmptyBuckets()
      requires table.Length == numBuckets + 1 && table[numBuckets].Sentinel?
      modifies table
      ensures table[numBuckets].Sentinel? && forall b :: 0 <= b < numBuckets ==> table[b].Empty?
    {
      for i := 0 to numBuckets
        invariant forall b :: 0 <= b < i ==> table[b].Empty?
        invariant table[numBuckets].Sentinel?
      {
        table[i] := Empty;
      }
    }

    lemma EmptyMap()
      requires Valid() && numItems == 0
      ensures Map() == map[]
    {
      assert rank == map[];
    }

    lemma SizeOfMap()
      requires Valid()
      ensures |Map()| == numItems
    {
      assert Map().Keys == rank.Keys;
      assert |Map()| == |Map().Keys| && |rank| == |rank.Keys|;
    }

    /** Makes room for size entries. */
    method ExplicitInit(size: nat)
      requires size < WORD
      modifies this
      ensures Valid() && Map() == map[] && numItems == numTombstones == 0
      ensures numBuckets == (if size == 0 then 0 else BucketsFor(size)) && fresh(table) && fresh(hashes)
    {
      if size > 0 {
        var k := BitCeilIsPow2(size * 4 % WORD / 3 + 1, 0);
        Init(BucketsFor(size));
        return;
      }
      table := new Bucket<V>[0];
      hashes := new nat[0];
      numBuckets, numItems, numTombstones, rank := 0, 0, 0, map[];
    }

    /** A dictionary of the entries of a list; the table it starts with is never replaced. */
    constructor FromList(list: seq<(Key, V)>)
      requires |list| < RESERVE_LIMIT
      ensures Valid() && Map() == FirstWins(list)
      ensures numBuckets == if list == [] then 0 else BucketsFor(|list|)
    {
      table := new Bucket<V>[0];
      hashes := new nat[0];
      numBuckets, numItems, numTombstones, rank := 0, 0, 0, map[];
      new;
      ExplicitInit(|list|);
      InsertAll(list);
    }

    /** Inserts the entries of a list for which the empty table was reserved; the table stays. */
    method InsertAll(list: seq<(Key, V)>)
      requires Valid() && Map() == map[] && numItems == numTombstones == 0 && |list| < RESERVE_LIMIT
      requires list != [] ==> numBuckets == BucketsFor(|list|)
      modifies this, table, hashes
      ensures Valid() && Map() == FirstWins(list) && table == old(table) && numBuckets == old(numBuckets)
    {
      for i := 0 to |list|
        invariant Valid() && Map() == FirstWins(list[..i]) && table == old(table) && numBuckets == old(numBuckets)
        invariant hashes == old(hashes) || fresh(hashes)
        invariant numItems <= i && numTombstones == 0
      {
        ReservedSize(|list|);
        RoomFor(|list|, numItems + 1);
        KeptExactly(numItems + 1, 0, numBuckets);
        InsertReserved(list, i);
      }
      assert list[..|list|] == list;
    }

    /** Inserts the next entry of a list into a table that has room for it. */
    method InsertReserved(list: seq<(Key, V)>, i: nat)
      requires Valid() && i < |list| && Map() == FirstWins(list[..i])
      requires numTombstones == 0 && 0 < numBuckets <= MAX_BUCKETS && Light(numItems + 1, 0, numBuckets)
      modifies this, table, hashes
      ensures Valid() && Map() == FirstWins(list[..i + 1]) && table == old(table) && numBuckets == old(numBuckets)
      ensures (hashes == old(hashes) || fresh(hashes)) && numItems <= old(numItems) + 1 && numTombstones == 0
    {
      FirstWinsNext(list, i);
      var bucket, inserted := TryEmplace(list[i].0, list[i].1);
    }

    // Iterators are positions in the table; the sentinel is the end.

    static method AdvancePastEmptyBuckets(table: array<Bucket<V>>, ptr: nat) returns (p: nat)
      requires ptr < table.Length && table[table.Length - 1].Sentinel?
      ensures ptr <= p < table.Length && !table[p].Empty? && !table[p].Tombstone?
      ensures forall b :: ptr <= b < p ==> table[b].Empty? || table[b].Tombstone?
    {
      p := ptr;
      while table[p].Empty? || table[p].Tombstone?
        invariant ptr <= p < table.Length
        invariant forall b :: ptr <= b < p ==> table[b].Empty? || table[b].Tombstone?
        decreases table.Length - p
      {
        p := p + 1;
      }
    }

    /** All the entries, in the order of iteration. */
    method Entries() returns (es: seq<(Key, V)>)
      requires Valid()
      ensures Lists(es, Map())
    {
      es := [];
      if numBuckets > 0 {
        es := AllEntries(table, hashes[..], numBuckets, rank);
      }
    }

    static method AllEntries(table: array<Bucket<V>>, ghost hs: seq<nat>, n: nat, ghost rank: map<Key, nat>)
      returns (es: seq<(Key, V)>)
      requires table.Length == n + 1 && table[n].Sentinel? && TableInv(table[..n], hs, rank)
      ensures Lists(es, Contents(table[..n], rank))
    {
      es := [];
      ghost var t := table[..n];
      NoSentinel(t, hs, rank);
      var p := AdvancePastEmptyBuckets(table, 0);
      ListedFirst(t, hs, rank, p);
      while p != n
        invariant p <= n && (p < n ==> t[p].Entry?)
        invariant Listed(t, rank, es, p)
        decreases n - p
      {
        var q := AdvancePastEmptyBuckets(table, p + 1);
        ListedStep(t, hs, rank, es, p, q);
        es := es + [(table[p].key, table[p].value)];
        p := q;
      }
      ListedLast(t, hs, rank, es);
    }

    method HasEntry(key: Key, value: V) returns (has: bool)
      requires Valid()
      ensures has <==> EntryIn(key, value, Map())
    {
      var it := Find(key);
      has := it != numBuckets && table[it].value == value;
    }

    /** Whether the two dictionaries hold the same. */
    method Equals(other: Table<V>) returns (eq: bool)
      requires Valid() && other.Valid()
      ensures eq <==> Map() == other.Map()
    {
      SizeOfMap();
      other.SizeOfMap();
      if numItems != other.numItems {
        return false;
      }
      var es := Entries();
      eq := other.HasEntries(es);
      SameEntries(es, Map(), other.Map());
    }

    method HasEntries(es: seq<(Key, V)>) returns (has: bool)
      requires Valid()
      ensures has <==> AllIn(es, Map())
    {
      ghost var m := Map();
      for i := 0 to |es|
        invariant AllIn(es[..i], m)
      {
        AllInStep(es, i, m);
        var entry := HasEntry(es[i].0, es[i].1);
        if !entry {
          return false;
        }
      }
      assert es[..|es|] == es;
      has := true;
    }
  }
}
