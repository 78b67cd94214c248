/**
 When the string dictionary grows or rebuilds its table, and how many buckets it reserves.
 */
module DictionaryLoad {
  import opened Bits

  /** The largest table for which the load arithmetic stays within 32 bits. */
  const MAX_BUCKETS: nat := 0x4000_0000

  /** More than three quarters of the buckets hold entries; reckoned in 32 bits. */
  predicate TooFull(items: nat, buckets: nat) {
    items * 4 % WORD > buckets * 3 % WORD
  }

  /** At most an eighth of the buckets have never been used. */
  predicate TooFewEmpty(items: nat, tombstones: nat, buckets: nat) {
    buckets - (items + tombstones) <= buckets / 8
  }

  predicate Rehashes(items: nat, tombstones: nat, buckets: nat) {
    TooFull(items, buckets) || TooFewEmpty(items, tombstones, buckets)
  }

  /** At most three quarters of the buckets hold entries, and more than an eighth have never been used. */
  predicate Light(items: nat, tombstones: nat, buckets: nat) {
    items * 4 <= buckets * 3 && items + tombstones + buckets / 8 < buckets
  }

  /** The table is kept exactly when at most three quarters of it hold entries and more than an eighth is unused. */
  lemma KeptExactly(items: nat, tombstones: nat, n: nat)
    requires 0 < n <= MAX_BUCKETS && items * 4 <= n * 3 + 4
    ensures !Rehashes(items, tombstones, n) <==> items * 4 <= n * 3 && n - items - tombstones > n / 8
  {
    assert items * 4 % WORD == items * 4 && n * 3 % WORD == n * 3;
  }

  /** After an insertion, whatever is done about the load makes it light. */
  lemma LoadRestored(items: nat, tombstones: nat, n: nat)
    requires 0 < n <= MAX_BUCKETS && items * 4 <= n * 3 + 4 && items + tombstones <= n
    ensures TooFull(items, n) <==> items * 4 > n * 3
    ensures if TooFull(items, n) then items < n * 2 && Light(items, 0, n * 2)
            else if TooFewEmpty(items, tombstones, n) then items < n && Light(items, 0, n)
            else Light(items, tombstones, n)
  {
    assert items * 4 % WORD == items * 4 && n * 3 % WORD == n * 3;
  }

  /** What is done about the load leaves room for the entries and makes the load light; sizes are kept in 32 bits. */
  predicate Restored(items: nat, tombstones: nat, n: nat) {
    if TooFull(items, n) then items < n * 2 % WORD && Light(items, 0, n * 2 % WORD)
    else if TooFewEmpty(items, tombstones, n) then items < n && Light(items, 0, n)
    else Light(items, tombstones, n)
  }

  /** After any insertion into a table of n buckets whose load was light. */
  ghost predicate AlwaysRestored(n: nat) {
    forall items: nat, tombstones: nat {:trigger Restored(items, tombstones, n)} ::
      items * 4 <= n * 3 + 4 && items + tombstones <= n ==> Restored(items, tombstones, n)
  }

  /** The load is looked after exactly in tables of at most 2^30 buckets. */
  lemma LoadRestoredExactly(n: nat)
    requires IsPow2(n) && n < WORD
    ensures AlwaysRestored(n) <==> n <= MAX_BUCKETS
  {
    if n <= MAX_BUCKETS {
      forall items: nat, tombstones: nat | items * 4 <= n * 3 + 4 && items + tombstones <= n
        ensures Restored(items, tombstones, n)
      {
        LoadRestored(items, tombstones, n);
        assert n * 2 % WORD == n * 2;
      }
    } else {
      LargestTable(n);
      assert !Restored(0x2000_0001, 0, n);
    }
  }

  /** The one larger table has 2^31 buckets: a quarter full it seems too full, and twice its size is 0. */
  lemma LargestTable(n: nat)
    requires IsPow2(n) && MAX_BUCKETS < n < WORD
    ensures n == MAX_BUCKETS * 2 && TooFull(0x2000_0001, n) && n * 2 % WORD == 0
  {
    var k: nat :| n == Pow2(k);
    Pow2Of30();
    if k <= 30 {
      Pow2Monotone(k, 30);
    } else if k >= 32 {
      Pow2Grows(31, k);
    }
  }

  // ----- Reserving -----

  /** The number of buckets reserved for n > 0 entries; reckoned in 32 bits. */
  function BucketsFor(n: nat): nat {
    BitCeil(n * 4 % WORD / 3 + 1)
  }

  const RESERVE_LIMIT: nat := 0x3000_0000

  /** No table of the reserved size is ever replaced while up to n entries are put in. */
  ghost predicate NeverRehashes(n: nat) {
    forall items :: 0 < items <= n ==> !Rehashes(items, 0, BucketsFor(n))
  }

  lemma ReservedSize(n: nat)
    requires 0 < n < RESERVE_LIMIT
    ensures IsPow2(BucketsFor(n)) && n * 4 < BucketsFor(n) * 3 && BucketsFor(n) <= MAX_BUCKETS
  {
    var x := n * 4 % WORD / 3 + 1;
    assert n * 4 % WORD == n * 4;
    assert Pow2(0) == 1 && MAX_BUCKETS == Pow2(30) by {
      Pow2Of30();
    }
    var j := BitCeilIsPow2(x, 0);
    BitCeilLeast(x, 0, 30);
  }

  /** No smaller power of two has room for n entries. */
  lemma ReservedIsLeast(n: nat, b: nat)
    requires 0 < n < RESERVE_LIMIT && IsPow2(b) && n * 4 < b * 3
    ensures BucketsFor(n) <= b
  {
    var m: nat :| b == Pow2(m);
    assert n * 4 % WORD == n * 4 && Pow2(0) == 1;
    BitCeilLeast(n * 4 / 3 + 1, 0, m);
  }

  lemma Pow2Of30()
    ensures Pow2(30) == MAX_BUCKETS && Pow2(31) == MAX_BUCKETS * 2
  {
    assert Pow2(4) == 16;
    assert Pow2(8) == 256;
    assert Pow2(12) == 4096;
    assert Pow2(16) == 0x1_0000;
    assert Pow2(20) == 0x10_0000;
    assert Pow2(24) == 0x100_0000;
    assert Pow2(28) == 0x1000_0000;
  }

  lemma RoomFor(n: nat, items: nat)
    requires 0 < items <= n < RESERVE_LIMIT
    ensures !Rehashes(items, 0, BucketsFor(n))
  {
    ReservedSize(n);
    assert items * 4 % WORD == items * 4 && BucketsFor(n) * 3 % WORD == BucketsFor(n) * 3;
  }

  /** Reserving for n entries keeps its promise exactly for these n. */
  lemma ReserveExactly(n: nat)
    requires 0 < n < WORD
    ensures NeverRehashes(n) <==> n < RESERVE_LIMIT
  {
    if n < RESERVE_LIMIT {
      forall items | 0 < items <= n ensures !Rehashes(items, 0, BucketsFor(n)) {
        RoomFor(n, items);
      }
    } else {
      var items := ReserveFails(n);
    }
  }

  lemma ReserveFails(n: nat) returns (items: nat)
    requires RESERVE_LIMIT <= n < WORD
    ensures 0 < items <= n && Rehashes(items, 0, BucketsFor(n))
  {
    var x := n * 4 % WORD / 3 + 1;
    Pow2Of30();
    var j := BitCeilIsPow2(x, 0);
    BitCeilLeast(x, 0, 31);
    if j > 31 {
      Pow2Grows(31, j);
    }
    if j >= 31 {
      items := 0x2000_0001;
    } else {
      Pow2Monotone(j, 30);
      items := BucketsFor(n) * 3 / 4 + 1;
      RoomRunsOut(n, x, BucketsFor(n), items);
    }
  }

  lemma RoomRunsOut(n: nat, x: nat, b: nat, items: nat)
    requires RESERVE_LIMIT <= n < WORD && x == n * 4 % WORD / 3 + 1 <= b <= MAX_BUCKETS
    requires items == b * 3 / 4 + 1
    ensures items <= n && TooFull(items, b)
  {
    assert items * 4 % WORD == items * 4 && b * 3 % WORD == b * 3;
  }
}
