/**
 The table of the string dictionary as a value: which buckets hold which keys, and why a
 search finds them.
 */
module HashTable {
  import opened Bits
  import opened Probing

  type Key = seq<byte>

  // ----- Hashing -----

  const HASH_SEED: nat := 5381

  /** The hash of key, starting from val: val * 33 + byte for every byte, in 32 bits. */
  function HashFrom(key: Key, val: nat): nat {
    if key == [] then val else HashFrom(key[1..], (val * 33 + key[0] as int) % WORD)
  }

  function Hash(key: Key): nat {
    HashFrom(key, HASH_SEED)
  }

  function Pow33(n: nat): nat {
    if n == 0 then 1 else 33 * Pow33(n - 1)
  }

  /** The sum of all bytes, each times 33 to the number of bytes after it. */
  function WeightedSum(key: Key): nat {
    if key == [] then 0 else key[0] as int * Pow33(|key| - 1) + WeightedSum(key[1..])
  }

  /** The hash is the seed times 33 to the number of bytes, plus the weighted sum, in 32 bits. */
  lemma HashIsWeightedSum(key: Key)
    ensures Hash(key) == (5381 * Pow33(|key|) + WeightedSum(key)) % WORD
  {
    HashFromIsSum(key, HASH_SEED);
  }

  lemma {:induction false} HashFromIsSum(key: Key, val: nat)
    requires val < WORD
    ensures HashFrom(key, val) == (val * Pow33(|key|) + WeightedSum(key)) % WORD
  {
    if key != [] {
      var x, p, s := val * 33 + key[0] as int, Pow33(|key| - 1), WeightedSum(key[1..]);
      HashFromIsSum(key[1..], x % WORD);
      FactorInWord(x, p, s);
      Weigh(val, key[0] as int, p);
    }
  }

  lemma Weigh(val: nat, b: nat, p: nat)
    ensures (val * 33 + b) * p == val * (33 * p) + b * p
  {
  }

  lemma FactorInWord(x: nat, p: nat, s: nat)
    ensures (x % WORD * p + s) % WORD == (x * p + s) % WORD
  {
    var q := x / WORD;
    assert x == x % WORD + q * WORD;
    assert (x % WORD + q * WORD) * p == x % WORD * p + (q * p) * WORD;
    WholeWords(x % WORD * p + s, q * p);
  }

  lemma WholeWords(a: nat, k: nat)
    ensures (a + k * WORD) % WORD == a % WORD
  {
  }

  /** Shifting left by five bits and adding is multiplying by 33, in 32 bits. */
  lemma ShiftedSum(val: nat, shifted: nat, b: nat)
    requires shifted == val * 32 % WORD
    ensures (shifted + val + b) % WORD == (val * 33 + b) % WORD
  {
    var q := val * 32 / WORD;
    assert val * 33 + b == shifted + val + b + q * WORD;
  }

  method HashString(key: Key) returns (val: nat)
    ensures val == Hash(key)
  {
    val := HASH_SEED;
    var i := 0;
    while i < |key|
      invariant 0 <= i <= |key|
      invariant HashFrom(key[i..], val) == Hash(key)
    {
      var shifted := val * 32 % WORD;
      ShiftedSum(val, shifted, key[i] as int);
      val := (shifted + val + key[i] as int) % WORD;
      assert key[i..][1..] == key[i + 1..];
      i := i + 1;
    }
    assert key[|key|..] == [];
  }

  // ----- Buckets -----

  datatype Bucket<V> = Empty | Tombstone | Entry(key: Key, value: V) | Sentinel

  /** The bucket for key after i steps, in a table of n buckets. */
  function Place(key: Key, i: nat, n: nat): (b: nat)
    requires n > 0
    ensures b < n
  {
    Probe(Hash(key), i, n)
  }

  /** The first r buckets on the way of key are not empty. */
  predicate PathFull<V>(t: seq<Bucket<V>>, key: Key, r: nat)
    requires |t| > 0
  {
    forall i :: 0 <= i < r ==> !t[Place(key, i, |t|)].Empty?
  }

  predicate Holds<V>(b: Bucket<V>, key: Key) {
    b.Entry? && b.key == key
  }

  /** None of the first r buckets on the way of key is empty or holds key. */
  predicate Passed<V>(t: seq<Bucket<V>>, key: Key, r: nat)
    requires |t| > 0
  {
    forall i :: 0 <= i < r ==> !t[Place(key, i, |t|)].Empty? && !Holds(t[Place(key, i, |t|)], key)
  }

  /** The search for key succeeds after r steps. */
  predicate Placed<V>(t: seq<Bucket<V>>, key: Key, r: nat)
    requires |t| > 0
  {
    Holds(t[Place(key, r, |t|)], key) && PathFull(t, key, r)
  }

  /** Bucket b holds nothing, or a key of the table in its right place with its hash. */
  predicate Sound<V>(t: seq<Bucket<V>>, hs: seq<nat>, rank: map<Key, nat>, b: nat)
    requires b < |t| == |hs|
  {
    && !t[b].Sentinel?
    && (t[b].Entry? ==> t[b].key in rank && Place(t[b].key, rank[t[b].key], |t|) == b && hs[b] == Hash(t[b].key))
  }

  /** The table t with the cached hashes hs holds exactly the keys of rank, each after rank steps. */
  ghost predicate TableInv<V>(t: seq<Bucket<V>>, hs: seq<nat>, rank: map<Key, nat>) {
    && IsPow2(|t|) && |t| == |hs| > 0
    && (forall b :: 0 <= b < |t| ==> Sound(t, hs, rank, b))
    && (forall key :: key in rank ==> Placed(t, key, rank[key]))
  }

  function ValueAt<V>(t: seq<Bucket<V>>, key: Key, r: nat): V
    requires |t| > 0 && Placed(t, key, r)
  {
    t[Place(key, r, |t|)].value
  }

  /** The map that the table stands for. */
  ghost function Contents<V>(t: seq<Bucket<V>>, rank: map<Key, nat>): map<Key, V>
    requires |t| > 0
    requires forall key :: key in rank ==> Placed(t, key, rank[key])
  {
    map key | key in rank :: ValueAt(t, key, rank[key])
  }

  // ----- Counting -----

  function CountEntries<V>(t: seq<Bucket<V>>): nat {
    if t == [] then 0 else CountEntries(t[..|t| - 1]) + if t[|t| - 1].Entry? then 1 else 0
  }

  function CountTombstones<V>(t: seq<Bucket<V>>): nat {
    if t == [] then 0 else CountTombstones(t[..|t| - 1]) + if t[|t| - 1].Tombstone? then 1 else 0
  }

  lemma {:induction false} CountUpdate<V>(t: seq<Bucket<V>>, b: nat, x: Bucket<V>)
    requires b < |t|
    ensures CountEntries(t[b := x]) == CountEntries(t) - (if t[b].Entry? then 1 else 0) + (if x.Entry? then 1 else 0)
    ensures CountTombstones(t[b := x])
         == CountTombstones(t) - (if t[b].Tombstone? then 1 else 0) + (if x.Tombstone? then 1 else 0)
  {
    var n := |t| - 1;
    if b == n {
      assert t[b := x][..n] == t[..n];
    } else {
      assert t[b := x][..n] == t[..n][b := x];
      CountUpdate(t[..n], b, x);
    }
  }

  /** If not every bucket is an entry or a tombstone, one is empty. */
  lemma {:induction false} SomeEmpty<V>(t: seq<Bucket<V>>) returns (b: nat)
    requires CountEntries(t) + CountTombstones(t) < |t|
    requires forall i :: 0 <= i < |t| ==> !t[i].Sentinel?
    ensures b < |t| && t[b].Empty?
  {
    var n := |t| - 1;
    if t[n].Empty? {
      b := n;
    } else {
      b := SomeEmpty(t[..n]);
    }
  }

  lemma {:induction false} CountOfEmpty<V>(t: seq<Bucket<V>>)
    requires forall i :: 0 <= i < |t| ==> t[i].Empty?
    ensures CountEntries(t) == CountTombstones(t) == 0
  {
    if t != [] {
      CountOfEmpty(t[..|t| - 1]);
    }
  }

  // ----- Searching -----

  /** The search for key has made probe - 1 steps in vain and is at bucket b; an empty bucket is
      met after last steps at the latest. */
  predicate Searching<V>(t: seq<Bucket<V>>, key: Key, probe: nat, b: nat, last: nat)
    requires |t| > 0
  {
    && 1 <= probe <= last + 1
    && b == Place(key, probe - 1, |t|) && Passed(t, key, probe - 1) && t[Place(key, last, |t|)].Empty?
  }

  lemma SearchStarts<V>(t: seq<Bucket<V>>, hs: seq<nat>, rank: map<Key, nat>, key: Key) returns (last: nat)
    requires TableInv(t, hs, rank) && CountEntries(t) + CountTombstones(t) < |t|
    ensures Searching(t, key, 1, FirstBucket(Hash(key), |t|), last)
  {
    NoSentinel(t, hs, rank);
    var b := SomeEmpty(t);
    last := ProbeReaches(Hash(key), |t|, b);
  }

  /** What the outcome of a search says about the map. */
  ghost predicate Found<V>(t: seq<Bucket<V>>, rank: map<Key, nat>, key: Key, bucket: int)
    requires |t| > 0
    requires forall k :: k in rank ==> Placed(t, k, rank[k])
  {
    if key in rank then 0 <= bucket < |t| && t[bucket] == Entry(key, Contents(t, rank)[key]) else bucket == -1
  }

  /** At a bucket that is not empty the search has found the key's place, or goes on. */
  lemma SearchStep<V>(t: seq<Bucket<V>>, hs: seq<nat>, rank: map<Key, nat>, key: Key, probe: nat, b: nat, last: nat)
    requires TableInv(t, hs, rank) && Searching(t, key, probe, b, last) && !t[b].Empty?
    ensures if Holds(t[b], key)
            then key in rank && hs[b] == Hash(key) && t[b] == Entry(key, Contents(t, rank)[key])
            else probe <= last && Searching(t, key, probe + 1, NextBucket(b, probe, |t|), last)
  {
    assert Sound(t, hs, rank, b);
  }

  /** A search that comes to an empty bucket without having met the key proves that it is absent. */
  lemma AbsentAtEmpty<V>(t: seq<Bucket<V>>, hs: seq<nat>, rank: map<Key, nat>, key: Key, probe: nat, b: nat, last: nat)
    requires TableInv(t, hs, rank) && Searching(t, key, probe, b, last) && t[b].Empty?
    ensures key !in rank && PathFull(t, key, probe - 1)
  {
    assert key in rank ==> Placed(t, key, rank[key]);
  }

  /** The first r buckets on the way of key hold entries. */
  predicate PathTaken<V>(t: seq<Bucket<V>>, key: Key, r: nat)
    requires |t| > 0
  {
    forall i :: 0 <= i < r ==> t[Place(key, i, |t|)].Entry?
  }

  /** Where a search that may insert ends: at the key, or at the first bucket on its way without an entry. */
  ghost predicate Offered<V>(t: seq<Bucket<V>>, rank: map<Key, nat>, key: Key, b: nat, r: nat)
    requires |t| > 0
    requires forall k :: k in rank ==> Placed(t, k, rank[k])
  {
    && b < |t|
    && (if key in rank then t[b] == Entry(key, Contents(t, rank)[key])
        else (t[b].Empty? || t[b].Tombstone?) && b == Place(key, r, |t|) && PathTaken(t, key, r))
  }

  /** None of the first r buckets on the way of key is a tombstone. */
  predicate NoTombstone<V>(t: seq<Bucket<V>>, key: Key, r: nat)
    requires |t| > 0
  {
    forall i :: 0 <= i < r ==> !t[Place(key, i, |t|)].Tombstone?
  }

  /** The first tombstone met by the search, if any. */
  predicate FirstTombstone<V>(t: seq<Bucket<V>>, key: Key, probe: nat, first: int, r: nat)
    requires |t| > 0
  {
    if first == -1 then probe > 0 && NoTombstone(t, key, probe - 1)
    else r + 1 < probe && first == Place(key, r, |t|) && t[first].Tombstone? && NoTombstone(t, key, r)
  }

  lemma OfferedAtEmpty<V>(t: seq<Bucket<V>>, hs: seq<nat>, rank: map<Key, nat>, key: Key, probe: nat, b: nat,
                          last: nat, first: int, r: nat)
    requires TableInv(t, hs, rank) && Searching(t, key, probe, b, last) && t[b].Empty?
    requires FirstTombstone(t, key, probe, first, r)
    ensures if first == -1 then Offered(t, rank, key, b, probe - 1) else Offered(t, rank, key, first, r)
  {
    AbsentAtEmpty(t, hs, rank, key, probe, b, last);
    NoSentinel(t, hs, rank);
  }

  // ----- Changes -----

  /** The hash of a bucket without an entry is of no account. */
  lemma HashElsewhere<V>(t: seq<Bucket<V>>, hs: seq<nat>, rank: map<Key, nat>, b: nat, h: nat)
    requires TableInv(t, hs, rank) && b < |t| && !t[b].Entry?
    ensures TableInv(t, hs[b := h], rank)
  {
    var hs' := hs[b := h];
    forall c | 0 <= c < |t| ensures Sound(t, hs', rank, c) {
      assert Sound(t, hs, rank, c);
    }
  }

  lemma EmptyTable<V>(t: seq<Bucket<V>>, hs: seq<nat>)
    requires IsPow2(|t|) && |hs| == |t|
    requires forall b :: 0 <= b < |t| ==> t[b].Empty?
    ensures TableInv(t, hs, map[]) && Contents(t, map[]) == map[]
    ensures CountEntries(t) == CountTombstones(t) == 0
  {
    CountOfEmpty(t);
    forall b | 0 <= b < |t| ensures Sound(t, hs, map[], b) {
    }
  }

  /** A new key goes into a bucket on its way, in front of which no bucket is empty. */
  lemma InsertKeeps<V>(t: seq<Bucket<V>>, hs: seq<nat>, rank: map<Key, nat>, key: Key, r: nat, value: V)
    requires TableInv(t, hs, rank) && key !in rank && PathFull(t, key, r)
    requires var b := Place(key, r, |t|); t[b].Empty? || t[b].Tombstone?
    ensures var b := Place(key, r, |t|);
            var t' := t[b := Entry(key, value)];
            && TableInv(t', hs[b := Hash(key)], rank[key := r])
            && Contents(t', rank[key := r]) == Contents(t, rank)[key := value]
  {
    var b := Place(key, r, |t|);
    var t' := t[b := Entry(key, value)];
    var hs' := hs[b := Hash(key)];
    var rank' := rank[key := r];
    forall k | k in rank' ensures Placed(t', k, rank'[k]) {
      assert k != key ==> Placed(t, k, rank[k]);
    }
    forall c | 0 <= c < |t'| ensures Sound(t', hs', rank', c) {
      assert Sound(t, hs, rank, c);
    }
  }

  /** A removed key leaves a tombstone, so that the ways of the others stay full. */
  lemma RemoveKeeps<V>(t: seq<Bucket<V>>, hs: seq<nat>, rank: map<Key, nat>, key: Key)
    requires TableInv(t, hs, rank) && key in rank
    ensures var t' := t[Place(key, rank[key], |t|) := Tombstone];
            && TableInv(t', hs, rank - {key})
            && Contents(t', rank - {key}) == Contents(t, rank) - {key}
  {
    var b := Place(key, rank[key], |t|);
    var t' := t[b := Tombstone];
    var rank' := rank - {key};
    assert Placed(t, key, rank[key]);
    forall k | k in rank' ensures Placed(t', k, rank'[k]) {
      assert Placed(t, k, rank[k]);
    }
    forall c | 0 <= c < |t'| ensures Sound(t', hs, rank', c) {
      assert Sound(t, hs, rank, c);
    }
  }

  /** A new entry in the offered bucket b, whose hash is stored already, and what it does to the counts. */
  lemma EntryStored<V>(t: seq<Bucket<V>>, hs: seq<nat>, rank: map<Key, nat>, b: nat, r: nat, key: Key, value: V)
    requires TableInv(t, hs, rank) && key !in rank && Offered(t, rank, key, b, r) && hs[b] == Hash(key)
    requires |rank| == CountEntries(t) && CountEntries(t) + CountTombstones(t) < |t|
    ensures var t' := t[b := Entry(key, value)];
            && TableInv(t', hs, rank[key := r]) && Contents(t', rank[key := r]) == Contents(t, rank)[key := value]
            && |rank[key := r]| == CountEntries(t') == CountEntries(t) + 1 && CountEntries(t') + CountTombstones(t') <= |t|
            && CountTombstones(t') == CountTombstones(t) - if t[b].Tombstone? then 1 else 0
  {
    InsertKeeps(t, hs, rank, key, r, value);
    CountUpdate(t, b, Entry(key, value));
    assert hs[b := Hash(key)] == hs;
  }

  /** A tombstone in place of the entry of key, and what it does to the counts. */
  lemma EntryRemoved<V>(t: seq<Bucket<V>>, hs: seq<nat>, rank: map<Key, nat>, b: nat, key: Key)
    returns (t': seq<Bucket<V>>, rank': map<Key, nat>)
    requires TableInv(t, hs, rank) && b < |t| && Holds(t[b], key) && |rank| == CountEntries(t)
    ensures t' == t[b := Tombstone] && TableInv(t', hs, rank') && Contents(t', rank') == Contents(t, rank) - {key}
    ensures |rank'| == CountEntries(t') == CountEntries(t) - 1 && CountTombstones(t') == CountTombstones(t) + 1
  {
    t', rank' := t[b := Tombstone], rank - {key};
    assert Sound(t, hs, rank, b);
    RemoveKeeps(t, hs, rank, key);
    CountUpdate(t, b, Tombstone);
    assert rank'.Keys == rank.Keys - {key};
  }

  // ----- Rebuilding -----

  /** The part of the map whose entries are in the first i buckets. */
  ghost function Moved<V>(t: seq<Bucket<V>>, rank: map<Key, nat>, i: nat): map<Key, V>
    requires |t| > 0
    requires forall key :: key in rank ==> Placed(t, key, rank[key])
  {
    map key | key in rank && Place(key, rank[key], |t|) < i :: ValueAt(t, key, rank[key])
  }

  lemma MovedStep<V>(t: seq<Bucket<V>>, hs: seq<nat>, rank: map<Key, nat>, i: nat)
    requires TableInv(t, hs, rank) && i < |t|
    ensures if t[i].Entry?
            then t[i].key !in Moved(t, rank, i) && hs[i] == Hash(t[i].key)
              && Moved(t, rank, i + 1) == Moved(t, rank, i)[t[i].key := t[i].value]
            else Moved(t, rank, i + 1) == Moved(t, rank, i)
  {
    assert Sound(t, hs, rank, i);
    assert forall key :: key in rank ==> Placed(t, key, rank[key]);
  }

  lemma MovedAll<V>(t: seq<Bucket<V>>, hs: seq<nat>, rank: map<Key, nat>)
    requires TableInv(t, hs, rank)
    ensures Moved(t, rank, 0) == map[] && Moved(t, rank, |t|) == Contents(t, rank)
  {
  }

  lemma {:induction false} CountPrefix<V>(t: seq<Bucket<V>>, i: nat)
    requires i <= |t|
    ensures CountEntries(t[..i]) <= CountEntries(t) <= |t|
  {
    if i == |t| {
      assert t[..i] == t;
      if i > 0 {
        CountPrefix(t[..i - 1], i - 1);
      }
    } else {
      CountPrefix(t[..|t| - 1], i);
      assert t[..|t| - 1][..i] == t[..i];
    }
  }

  /** The new table nt holds the entries of the first i buckets of t. */
  ghost predicate Rebuilt<V>(nt: seq<Bucket<V>>, nhs: seq<nat>, newRank: map<Key, nat>,
                             t: seq<Bucket<V>>, rank: map<Key, nat>, i: nat)
    requires |t| > 0 && i <= |t|
    requires forall key :: key in rank ==> Placed(t, key, rank[key])
  {
    && TableInv(nt, nhs, newRank) && Contents(nt, newRank) == Moved(t, rank, i)
    && CountEntries(nt) == CountEntries(t[..i]) && CountTombstones(nt) == 0
  }

  lemma RebuiltFirst<V>(nt: seq<Bucket<V>>, nhs: seq<nat>, t: seq<Bucket<V>>, hs: seq<nat>, rank: map<Key, nat>)
    requires TableInv(t, hs, rank) && IsPow2(|nt|) && |nhs| == |nt|
    requires forall b :: 0 <= b < |nt| ==> nt[b].Empty?
    ensures Rebuilt(nt, nhs, map[], t, rank, 0)
  {
    EmptyTable(nt, nhs);
    MovedAll(t, hs, rank);
  }

  lemma RebuiltSkips<V>(nt: seq<Bucket<V>>, nhs: seq<nat>, newRank: map<Key, nat>,
                        t: seq<Bucket<V>>, hs: seq<nat>, rank: map<Key, nat>, i: nat)
    requires TableInv(t, hs, rank) && i < |t| && Rebuilt(nt, nhs, newRank, t, rank, i) && !t[i].Entry?
    ensures Rebuilt(nt, nhs, newRank, t, rank, i + 1)
  {
    MovedStep(t, hs, rank, i);
    assert t[..i + 1][..i] == t[..i];
  }

  lemma RebuiltRoom<V>(nt: seq<Bucket<V>>, nhs: seq<nat>, newRank: map<Key, nat>,
                       t: seq<Bucket<V>>, hs: seq<nat>, rank: map<Key, nat>, i: nat)
    requires TableInv(t, hs, rank) && i < |t| && Rebuilt(nt, nhs, newRank, t, rank, i) && t[i].Entry?
    requires CountEntries(t) < |nt|
    ensures t[i].key !in newRank && hs[i] == Hash(t[i].key) && CountEntries(nt) + CountTombstones(nt) < |nt|
  {
    MovedStep(t, hs, rank, i);
    CountPrefix(t, i);
    assert t[i].key !in Contents(nt, newRank);
  }

  lemma RebuiltTakes<V>(nt: seq<Bucket<V>>, nhs: seq<nat>, newRank: map<Key, nat>,
                        t: seq<Bucket<V>>, hs: seq<nat>, rank: map<Key, nat>, i: nat, r: nat)
    requires TableInv(t, hs, rank) && i < |t| && Rebuilt(nt, nhs, newRank, t, rank, i) && t[i].Entry?
    requires t[i].key !in newRank && PathFull(nt, t[i].key, r) && nt[Place(t[i].key, r, |nt|)].Empty?
    ensures var b := Place(t[i].key, r, |nt|);
            Rebuilt(nt[b := t[i]], nhs[b := hs[i]], newRank[t[i].key := r], t, rank, i + 1)
  {
    MovedStep(t, hs, rank, i);
    InsertKeeps(nt, nhs, newRank, t[i].key, r, t[i].value);
    CountUpdate(nt, Place(t[i].key, r, |nt|), t[i]);
    assert t[..i + 1][..i] == t[..i];
  }

  lemma RebuiltAll<V>(nt: seq<Bucket<V>>, nhs: seq<nat>, newRank: map<Key, nat>,
                      t: seq<Bucket<V>>, hs: seq<nat>, rank: map<Key, nat>)
    requires TableInv(t, hs, rank) && Rebuilt(nt, nhs, newRank, t, rank, |t|)
    ensures Contents(nt, newRank) == Contents(t, rank)
    ensures CountEntries(nt) == CountEntries(t) && |newRank| == |rank|
  {
    MovedAll(t, hs, rank);
    assert t[..|t|] == t;
    assert newRank.Keys == Contents(nt, newRank).Keys == Contents(t, rank).Keys == rank.Keys;
    assert |newRank| == |newRank.Keys| && |rank| == |rank.Keys|;
  }

  // ----- Iterating -----

  /** Buckets without an entry hold nothing of the map. */
  lemma {:induction false} MovedSkips<V>(t: seq<Bucket<V>>, hs: seq<nat>, rank: map<Key, nat>, i: nat, j: nat)
    requires TableInv(t, hs, rank) && i <= j <= |t|
    requires forall b :: i <= b < j ==> !t[b].Entry?
    ensures Moved(t, rank, i) == Moved(t, rank, j)
    decreases j - i
  {
    if i < j {
      MovedSkips(t, hs, rank, i, j - 1);
      MovedStep(t, hs, rank, j - 1);
    }
  }

  /** es lists every entry of m, and none twice. */
  predicate Lists<V(==)>(es: seq<(Key, V)>, m: map<Key, V>) {
    && |es| == |m|
    && (forall i :: 0 <= i < |es| ==> es[i].0 in m && m[es[i].0] == es[i].1)
    && (forall i, j :: 0 <= i < j < |es| ==> es[i].0 != es[j].0)
  }

  lemma ListsOneMore<V>(es: seq<(Key, V)>, m: map<Key, V>, key: Key, value: V)
    requires Lists(es, m) && key !in m
    ensures Lists(es + [(key, value)], m[key := value])
  {
  }

  lemma {:induction false} ListsAll<V>(es: seq<(Key, V)>, m: map<Key, V>, key: Key) returns (i: nat)
    requires Lists(es, m) && key in m
    ensures i < |es| && es[i] == (key, m[key])
  {
    assert key in m.Keys && |m| == |m.Keys| > 0;
    i := |es| - 1;
    if es[i].0 != key {
      var m' := m - {es[i].0};
      assert m'.Keys == m.Keys - {es[i].0};
      assert |m'| == |m'.Keys| && |m| == |m.Keys|;
      assert Lists(es[..i], m');
      i := ListsAll(es[..i], m', key);
    }
  }

  predicate EntryIn<V(==)>(key: Key, value: V, m: map<Key, V>) {
    key in m && m[key] == value
  }

  predicate AllIn<V(==)>(es: seq<(Key, V)>, m: map<Key, V>) {
    forall i :: 0 <= i < |es| ==> EntryIn(es[i].0, es[i].1, m)
  }

  lemma AllInStep<V>(es: seq<(Key, V)>, i: nat, m: map<Key, V>)
    requires i < |es| && AllIn(es[..i], m)
    ensures if EntryIn(es[i].0, es[i].1, m) then AllIn(es[..i + 1], m) else !AllIn(es, m)
  {
    assert forall j :: 0 <= j < i ==> es[..i + 1][j] == es[..i][j];
  }

  /** A map of the same size that has all the entries of m is m. */
  lemma SameEntries<V>(es: seq<(Key, V)>, m: map<Key, V>, other: map<Key, V>)
    requires Lists(es, m) && |m| == |other|
    ensures AllIn(es, other) <==> m == other
  {
    if AllIn(es, other) {
      forall key | key in m ensures key in other && other[key] == m[key] {
        var i := ListsAll(es, m, key);
      }
      SameSizeKeys(m, other);
    }
  }

  lemma SameSizeKeys<V>(m: map<Key, V>, other: map<Key, V>)
    requires m.Keys <= other.Keys && |m| == |other|
    ensures m.Keys == other.Keys
  {
    assert |m.Keys| == |m| && |other.Keys| == |other|;
    forall key | key in other.Keys ensures key in m.Keys {
      if key !in m.Keys {
        SubsetSize(m.Keys, other.Keys - {key});
      }
    }
  }

  lemma {:induction false} SubsetSize(a: set<Key>, b: set<Key>)
    requires a <= b
    ensures |a| <= |b|
  {
    if a != {} {
      var x :| x in a;
      SubsetSize(a - {x}, b - {x});
    }
  }

  lemma NoSentinel<V>(t: seq<Bucket<V>>, hs: seq<nat>, rank: map<Key, nat>)
    requires TableInv(t, hs, rank)
    ensures forall b :: 0 <= b < |t| ==> !t[b].Sentinel?
  {
    forall b | 0 <= b < |t| ensures !t[b].Sentinel? {
      assert Sound(t, hs, rank, b);
    }
  }

  /** es lists the entries of the first i buckets. */
  ghost predicate Listed<V>(t: seq<Bucket<V>>, rank: map<Key, nat>, es: seq<(Key, V)>, i: nat)
    requires |t| > 0
    requires forall key :: key in rank ==> Placed(t, key, rank[key])
  {
    Lists(es, Moved(t, rank, i))
  }

  lemma ListedFirst<V>(t: seq<Bucket<V>>, hs: seq<nat>, rank: map<Key, nat>, p: nat)
    requires TableInv(t, hs, rank) && p <= |t| && forall b :: 0 <= b < p ==> !t[b].Entry?
    ensures Listed(t, rank, [], p)
  {
    MovedSkips(t, hs, rank, 0, p);
    MovedAll(t, hs, rank);
  }

  lemma ListedStep<V>(t: seq<Bucket<V>>, hs: seq<nat>, rank: map<Key, nat>, es: seq<(Key, V)>, p: nat, q: nat)
    requires TableInv(t, hs, rank) && p < q <= |t| && t[p].Entry? && Listed(t, rank, es, p)
    requires forall b :: p < b < q ==> !t[b].Entry?
    ensures Listed(t, rank, es + [(t[p].key, t[p].value)], q)
  {
    MovedStep(t, hs, rank, p);
    MovedSkips(t, hs, rank, p + 1, q);
    ListsOneMore(es, Moved(t, rank, p), t[p].key, t[p].value);
  }

  lemma ListedLast<V>(t: seq<Bucket<V>>, hs: seq<nat>, rank: map<Key, nat>, es: seq<(Key, V)>)
    requires TableInv(t, hs, rank) && Listed(t, rank, es, |t|)
    ensures Lists(es, Contents(t, rank))
  {
    MovedAll(t, hs, rank);
  }

  // ----- Filling from a list -----

  /** The map that holds, for every key of the list, the value of its first entry. */
  function FirstWins<V>(list: seq<(Key, V)>): map<Key, V> {
    if list == [] then map[]
    else
      var m := FirstWins(list[..|list| - 1]);
      var last := list[|list| - 1];
      if last.0 in m then m else m[last.0 := last.1]
  }

  lemma FirstWinsNext<V>(list: seq<(Key, V)>, i: nat)
    requires i < |list|
    ensures var m := FirstWins(list[..i]);
            FirstWins(list[..i + 1]) == if list[i].0 in m then m else m[list[i].0 := list[i].1]
  {
    assert list[..i + 1][..i] == list[..i];
  }

  lemma {:induction false} FirstWinsExactly<V>(list: seq<(Key, V)>, key: Key)
    ensures key in FirstWins(list) <==> exists i :: 0 <= i < |list| && list[i].0 == key
    ensures forall i :: 0 <= i < |list| && list[i].0 == key && (forall j :: 0 <= j < i ==> list[j].0 != key) ==>
              FirstWins(list)[key] == list[i].1
  {
    if list != [] {
      var n := |list| - 1;
      var rest := list[..n];
      FirstWinsExactly(rest, key);
      assert forall i :: 0 <= i < n ==> list[i] == rest[i];
      assert key in FirstWins(list) <==> key in FirstWins(rest) || list[n].0 == key;
    }
  }
}
