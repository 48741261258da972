// The pending-transaction pool (src/pool.rs): a map ordered by hash.
module Pool {
  import opened Interface

  type TxMap = map<string, Transaction>

  // ----- Hash order -----

  /** The order of the keys: compare the first characters that differ; a proper
      prefix comes first. */
  predicate Before(a: string, b: string)
    decreases |a|
  {
    if b == [] then false
    else if a == [] then true
    else if a[0] != b[0] then a[0] < b[0]
    else Before(a[1..], b[1..])
  }

  lemma {:induction false} BeforeIsTotal(a: string, b: string)
    ensures a != b ==> Before(a, b) || Before(b, a)
    ensures !(Before(a, b) && Before(b, a))
    decreases |a|
  {
    if a == [] || b == [] {
    } else {
      BeforeIsTotal(a[1..], b[1..]);
      if a[0] == b[0] && a[1..] == b[1..] {
        assert a == [a[0]] + a[1..] == b;
      }
    }
  }

  /** `a` and `b` have the same first `n` characters, and there `a` ends or has the
      smaller character. */
  ghost predicate DecidedAt(a: string, b: string, n: nat) {
    n <= |a| && n < |b| && a[..n] == b[..n] && (n == |a| || a[n] < b[n])
  }

  /** The order is that of the dictionary. */
  lemma {:induction false} BeforeIffDecided(a: string, b: string)
    ensures Before(a, b) <==> exists n: nat :: DecidedAt(a, b, n)
    decreases |a|
  {
    if b == [] {
    } else if a == [] || a[0] < b[0] {
      assert DecidedAt(a, b, 0);
    } else if a[0] == b[0] {
      BeforeIffDecided(a[1..], b[1..]);
      assert a == [a[0]] + a[1..] && b == [b[0]] + b[1..];
      if n: nat :| DecidedAt(a[1..], b[1..], n) {
        assert a[..n + 1] == [a[0]] + a[1..][..n] && b[..n + 1] == [b[0]] + b[1..][..n];
        assert DecidedAt(a, b, n + 1);
      }
      if n: nat :| DecidedAt(a, b, n) {
        assert n != 0;
        assert a[1..][..n - 1] == a[..n][1..] && b[1..][..n - 1] == b[..n][1..];
        assert DecidedAt(a[1..], b[1..], n - 1);
      }
    } else {
      forall n: nat
        ensures !DecidedAt(a, b, n)
      {
        if 0 < n <= |a| && n < |b| {
          assert a[..n][0] == a[0] && b[..n][0] == b[0];
        }
      }
    }
  }

  lemma {:induction false} BeforeIsTransitive(a: string, b: string, c: string)
    requires Before(a, b) && Before(b, c)
    ensures Before(a, c)
    decreases |a|
  {
    if a != [] && a[0] == b[0] && b[0] == c[0] {
      BeforeIsTransitive(a[1..], b[1..], c[1..]);
    }
  }

  /** `k` comes before every other key. */
  ghost predicate IsFirst(m: TxMap, k: string) {
    k in m && forall j | j in m && j != k :: Before(k, j)
  }

  lemma FirstExists(m: TxMap)
    requires m != map[]
    ensures exists k :: IsFirst(m, k)
    decreases |m|
  {
    var x :| x in m;
    var rest := m - {x};
    if rest == map[] {
      assert forall j | j in m :: j == x || j in rest;
      assert IsFirst(m, x);
    } else {
      assert rest.Keys == m.Keys - {x};
      FirstExists(rest);
      var k :| IsFirst(rest, k);
      BeforeIsTotal(x, k);
      if Before(x, k) {
        forall j | j in m && j != x
          ensures Before(x, j)
        {
          assert j in rest;
          if j != k {
            BeforeIsTransitive(x, k, j);
          }
        }
        assert IsFirst(m, x);
      } else {
        forall j | j in m && j != k
          ensures Before(k, j)
        {
          if j != x {
            assert j in rest;
          }
        }
        assert IsFirst(m, k);
      }
    }
  }

  lemma FirstIsUnique(m: TxMap, k: string, k': string)
    requires IsFirst(m, k) && IsFirst(m, k')
    ensures k == k'
  {
    BeforeIsTotal(k, k');
  }

  // ----- Listings: what `values()` of an ordered map means -----

  ghost predicate HasHash(txs: seq<Transaction>, hash: string) {
    exists i :: 0 <= i < |txs| && txs[i].hash == hash
  }

  /** `txs` are the pool's transactions, each once, in strictly ascending order
      of their keys. */
  ghost predicate IsListing(m: TxMap, txs: seq<Transaction>) {
    && (forall i, j | 0 <= i < j < |txs| :: Before(txs[i].hash, txs[j].hash))
    && (forall i | 0 <= i < |txs| :: txs[i].hash in m && m[txs[i].hash] == txs[i])
    && (forall k | k in m :: HasHash(txs, k))
  }

  /** Every transaction is kept under its own hash. */
  ghost predicate KeyedByHash(m: TxMap) {
    forall k | k in m :: m[k].hash == k
  }

  lemma ListingStartsWithFirst(m: TxMap, txs: seq<Transaction>)
    requires IsListing(m, txs) && txs != []
    ensures IsFirst(m, txs[0].hash)
  {
    var first := txs[0].hash;
    forall j | j in m && j != first
      ensures Before(first, j)
    {
      assert HasHash(txs, j);
      var i :| 0 <= i < |txs| && txs[i].hash == j;
    }
  }

  lemma RestIsListing(m: TxMap, txs: seq<Transaction>)
    requires IsListing(m, txs) && txs != []
    ensures IsListing(m - {txs[0].hash}, txs[1..])
  {
    var first := txs[0].hash;
    var rest, m' := txs[1..], m - {first};
    forall i | 0 <= i < |rest|
      ensures rest[i].hash in m' && m'[rest[i].hash] == rest[i]
    {
      assert rest[i] == txs[i + 1];
      assert Before(first, txs[i + 1].hash);
      BeforeIsTotal(first, txs[i + 1].hash);
    }
    forall k | k in m'
      ensures HasHash(rest, k)
    {
      assert HasHash(txs, k);
      var i :| 0 <= i < |txs| && txs[i].hash == k;
      assert rest[i - 1].hash == k;
    }
  }

  lemma EmptyListing(m: TxMap, txs: seq<Transaction>)
    requires IsListing(m, txs)
    ensures m == map[] <==> txs == []
  {
    if txs != [] {
      assert txs[0].hash in m;
    }
    if m != map[] {
      var k :| k in m;
      assert HasHash(txs, k);
    }
  }

  lemma HeadsAgree(m: TxMap, a: seq<Transaction>, b: seq<Transaction>)
    requires IsListing(m, a) && IsListing(m, b) && a != [] && b != []
    ensures a[0] == b[0]
    ensures IsListing(m - {a[0].hash}, a[1..]) && IsListing(m - {a[0].hash}, b[1..])
  {
    ListingStartsWithFirst(m, a);
    ListingStartsWithFirst(m, b);
    FirstIsUnique(m, a[0].hash, b[0].hash);
    RestIsListing(m, a);
    RestIsListing(m, b);
  }

  /** A pool has only one listing. */
  lemma {:induction false} ListingIsUnique(m: TxMap, a: seq<Transaction>, b: seq<Transaction>)
    requires IsListing(m, a) && IsListing(m, b)
    ensures a == b
    decreases |a|
  {
    EmptyListing(m, a);
    EmptyListing(m, b);
    if a != [] {
      HeadsAgree(m, a, b);
      ListingIsUnique(m - {a[0].hash}, a[1..], b[1..]);
      SameHeadAndTail(a, b);
    }
  }

  lemma SameHeadAndTail<T>(a: seq<T>, b: seq<T>)
    requires a != [] && b != [] && a[0] == b[0] && a[1..] == b[1..]
    ensures a == b
  {
    assert a == [a[0]] + a[1..];
    assert b == [b[0]] + b[1..];
  }

  lemma ListingGrowsAtFront(m: TxMap, k: string, rest: seq<Transaction>)
    requires KeyedByHash(m) && IsFirst(m, k) && IsListing(m - {k}, rest)
    ensures IsListing(m, [m[k]] + rest)
  {
    var txs := [m[k]] + rest;
    forall j | j in m
      ensures HasHash(txs, j)
    {
      if j == k {
        assert txs[0].hash == j;
      } else {
        assert HasHash(rest, j);
        var i :| 0 <= i < |rest| && rest[i].hash == j;
        assert txs[i + 1].hash == j;
      }
    }
  }

  /** The transactions in key order, taken off the front one by one. */
  ghost function Listing(m: TxMap): seq<Transaction>
    decreases |m|
  {
    if m == map[] then []
    else
      FirstExists(m);
      var k :| IsFirst(m, k);
      assert (m - {k}).Keys == m.Keys - {k};
      [m[k]] + Listing(m - {k})
  }

  lemma {:induction false} ListingIsListing(m: TxMap)
    requires KeyedByHash(m)
    ensures IsListing(m, Listing(m))
    decreases |m|
  {
    if m == map[] {
    } else {
      FirstExists(m);
      var k :| IsFirst(m, k);
      ListingFrom(m, k);
      assert (m - {k}).Keys == m.Keys - {k};
      ListingIsListing(m - {k});
      ListingGrowsAtFront(m, k, Listing(m - {k}));
    }
  }

  lemma ListingFrom(m: TxMap, k: string)
    requires IsFirst(m, k)
    ensures Listing(m) == [m[k]] + Listing(m - {k})
  {
    FirstExists(m);
    var k' :| IsFirst(m, k') && Listing(m) == [m[k']] + Listing(m - {k'});
    FirstIsUnique(m, k, k');
  }

  lemma ListingMoves(m: TxMap, k: string, txs: seq<Transaction>)
    requires IsFirst(m, k)
    ensures txs + Listing(m) == (txs + [m[k]]) + Listing(m - {k})
    ensures |m - {k}| < |m|
  {
    ListingFrom(m, k);
    assert (m - {k}).Keys == m.Keys - {k};
  }

  method FirstKey(m: TxMap) returns (k: string)
    requires m != map[]
    ensures IsFirst(m, k)
  {
    FirstExists(m);
    k :| k in m && forall j | j in m && j != k :: Before(k, j);
  }

  // ----- Adding a batch -----

  /** The pool and the hashes reported as added after inserting `txs` in turn. */
  function AddAll(m: TxMap, txs: seq<Transaction>): (TxMap, seq<string>)
    decreases |txs|
  {
    if txs == [] then (m, [])
    else
      var n := |txs| - 1;
      var (m', added) := AddAll(m, txs[..n]);
      var tx := txs[n];
      (m'[tx.hash := tx], if tx.hash in m' then added else added + [tx.hash])
  }

  /** Index of the first transaction with this hash, `|txs|` if there is none. */
  function FirstAt(txs: seq<Transaction>, hash: string): (i: nat)
    ensures i <= |txs|
    ensures i < |txs| ==> txs[i].hash == hash
    ensures forall j | 0 <= j < i :: txs[j].hash != hash
  {
    if txs == [] then 0
    else if txs[0].hash == hash then 0
    else 1 + FirstAt(txs[1..], hash)
  }

  /** No later transaction of the batch has the hash of number `i`. */
  ghost predicate LastOfItsHash(txs: seq<Transaction>, i: nat)
    requires i < |txs|
  {
    forall j | i < j < |txs| :: txs[j].hash != txs[i].hash
  }

  /** Of several transactions with one hash the last is the one stored. */
  ghost predicate LastWins(txs: seq<Transaction>, m': TxMap) {
    forall i: nat | i < |txs| && LastOfItsHash(txs, i) :: txs[i].hash in m' && m'[txs[i].hash] == txs[i]
  }

  /** Exactly the batch's hashes that were not in the pool. */
  ghost predicate AddedExactlyNew(m: TxMap, txs: seq<Transaction>, added: seq<string>) {
    forall h :: h in added <==> HasHash(txs, h) && h !in m
  }

  /** In the order of first occurrence in the batch; so no hash twice. */
  ghost predicate FirstOccurrenceOrder(txs: seq<Transaction>, added: seq<string>) {
    forall i, j | 0 <= i < j < |added| :: FirstAt(txs, added[i]) < FirstAt(txs, added[j])
  }

  /** The pool after a batch: the old keys and the batch's, the last transaction of
      the batch under each of its hashes, and everything else as it was. */
  ghost predicate HoldsBatch(m: TxMap, txs: seq<Transaction>, m': TxMap) {
    && (forall h :: h in m' <==> h in m || HasHash(txs, h))
    && LastWins(txs, m')
    && (forall h | h in m && !HasHash(txs, h) :: h in m' && m'[h] == m[h])
  }

  /** What is reported for it: exactly the new hashes, in order of first
      occurrence. */
  ghost predicate ReportsBatch(m: TxMap, txs: seq<Transaction>, added: seq<string>) {
    && AddedExactlyNew(m, txs, added)
    && FirstOccurrenceOrder(txs, added)
    && (forall i, j | 0 <= i < j < |added| :: added[i] != added[j])
  }

  lemma {:induction false} FirstAtInPrefix(txs: seq<Transaction>, n: nat, hash: string)
    requires n <= |txs|
    ensures HasHash(txs[..n], hash) ==> FirstAt(txs, hash) < n
    ensures !HasHash(txs[..n], hash) ==> n <= FirstAt(txs, hash)
    ensures FirstAt(txs, hash) < n ==> FirstAt(txs[..n], hash) == FirstAt(txs, hash)
    decreases n
  {
    if n == 0 {
    } else {
      var first, rest := txs[..n], txs[1..];
      assert first[1..] == rest[..n - 1];
      FirstAtInPrefix(rest, n - 1, hash);
      if txs[0].hash == hash {
        assert first[0].hash == hash;
      } else {
        if HasHash(first, hash) {
          var i :| 0 <= i < n && first[i].hash == hash;
          assert rest[..n - 1][i - 1].hash == hash;
        }
        if HasHash(rest[..n - 1], hash) {
          var i :| 0 <= i < n - 1 && rest[..n - 1][i].hash == hash;
          assert first[i + 1].hash == hash;
        }
      }
    }
  }

  lemma HasHashSnoc(txs: seq<Transaction>, n: nat, hash: string)
    requires n + 1 == |txs|
    ensures HasHash(txs, hash) <==> HasHash(txs[..n], hash) || txs[n].hash == hash
  {
    if HasHash(txs[..n], hash) {
      var i :| 0 <= i < n && txs[..n][i].hash == hash;
      assert txs[i].hash == hash;
    }
    if HasHash(txs, hash) {
      var i :| 0 <= i < |txs| && txs[i].hash == hash;
      assert i < n ==> txs[..n][i].hash == hash;
    }
  }

  lemma {:induction false} AddAllKeys(m: TxMap, txs: seq<Transaction>)
    ensures forall h :: h in AddAll(m, txs).0 <==> h in m || HasHash(txs, h)
    ensures AddedExactlyNew(m, txs, AddAll(m, txs).1)
    decreases |txs|
  {
    if txs == [] {
    } else {
      var n := |txs| - 1;
      AddAllKeys(m, txs[..n]);
      forall h
        ensures HasHash(txs, h) <==> HasHash(txs[..n], h) || txs[n].hash == h
      {
        HasHashSnoc(txs, n, h);
      }
    }
  }

  lemma {:induction false} AddAllSize(m: TxMap, txs: seq<Transaction>)
    ensures |AddAll(m, txs).0| == |m| + |AddAll(m, txs).1|
    decreases |txs|
  {
    if txs == [] {
    } else {
      AddAllSize(m, txs[..|txs| - 1]);
    }
  }

  lemma {:induction false} AddAllOrder(m: TxMap, txs: seq<Transaction>)
    ensures FirstOccurrenceOrder(txs, AddAll(m, txs).1)
    decreases |txs|
  {
    if txs == [] {
    } else {
      var n := |txs| - 1;
      var before := txs[..n];
      AddAllOrder(m, before);
      AddAllKeys(m, before);
      OrderSnoc(m, txs, AddAll(m, before).1, AddAll(m, txs).1);
    }
  }

  lemma OrderSnoc(m: TxMap, txs: seq<Transaction>, earlier: seq<string>, added: seq<string>)
    requires txs != []
    requires FirstOccurrenceOrder(txs[..|txs| - 1], earlier) && AddedExactlyNew(m, txs[..|txs| - 1], earlier)
    requires
      || added == earlier
      || (added == earlier + [txs[|txs| - 1].hash] && !HasHash(txs[..|txs| - 1], txs[|txs| - 1].hash))
    ensures FirstOccurrenceOrder(txs, added)
  {
    var n := |txs| - 1;
    forall i, j | 0 <= i < j < |added|
      ensures FirstAt(txs, added[i]) < FirstAt(txs, added[j])
    {
      assert added[i] == earlier[i] && added[i] in earlier;
      FirstAtInPrefix(txs, n, added[i]);
      FirstAtInPrefix(txs, n, added[j]);
      if j < |earlier| {
        assert added[j] == earlier[j] && added[j] in earlier;
      }
    }
  }

  lemma {:induction false} AddAllLastWins(m: TxMap, txs: seq<Transaction>)
    ensures LastWins(txs, AddAll(m, txs).0)
    decreases |txs|
  {
    if txs == [] {
    } else {
      var n := |txs| - 1;
      var before := txs[..n];
      AddAllLastWins(m, before);
      var m' := AddAll(m, txs).0;
      forall i: nat | i < |txs| && LastOfItsHash(txs, i)
        ensures txs[i].hash in m' && m'[txs[i].hash] == txs[i]
      {
        if i < n {
          assert txs[n].hash != txs[i].hash;
          assert before[i] == txs[i];
          assert LastOfItsHash(before, i);
        }
      }
    }
  }

  lemma {:induction false} AddAllKeepsOthers(m: TxMap, txs: seq<Transaction>)
    ensures forall h | h in m && !HasHash(txs, h) :: h in AddAll(m, txs).0 && AddAll(m, txs).0[h] == m[h]
    ensures KeyedByHash(m) ==> KeyedByHash(AddAll(m, txs).0)
    decreases |txs|
  {
    if txs == [] {
    } else {
      var n := |txs| - 1;
      AddAllKeepsOthers(m, txs[..n]);
      forall h
        ensures HasHash(txs, h) <==> HasHash(txs[..n], h) || txs[n].hash == h
      {
        HasHashSnoc(txs, n, h);
      }
    }
  }

  /** What adding a batch means: the reported hashes are exactly the new ones,
      in order of first occurrence and therefore without repetition; the pool
      grows by their number; the last transaction per hash is the one kept, and
      everything else stays. */
  lemma AddAllMeaning(m: TxMap, txs: seq<Transaction>)
    ensures
      var (m', added) := AddAll(m, txs);
      ReportsBatch(m, txs, added) && |m'| == |m| + |added| && HoldsBatch(m, txs, m')
  {
    AddAllKeys(m, txs);
    AddAllOrder(m, txs);
    AddAllSize(m, txs);
    AddAllLastWins(m, txs);
    AddAllKeepsOthers(m, txs);
  }

  // ----- The broadcast filter -----

  /** The batch entries whose hash the caller is told was added. */
  function KeepAdded(txs: seq<Transaction>, added: seq<string>): seq<Transaction> {
    if txs == [] then []
    else (if txs[0].hash in added then [txs[0]] else []) + KeepAdded(txs[1..], added)
  }

  /** The batch entries whose hash the pool did not have. */
  function KeepUnknown(txs: seq<Transaction>, m: TxMap): seq<Transaction> {
    if txs == [] then []
    else (if txs[0].hash in m then [] else [txs[0]]) + KeepUnknown(txs[1..], m)
  }

  lemma {:induction false} FiltersAgree(txs: seq<Transaction>, m: TxMap, added: seq<string>)
    requires forall i | 0 <= i < |txs| :: txs[i].hash in added <==> txs[i].hash !in m
    ensures KeepAdded(txs, added) == KeepUnknown(txs, m)
  {
    if txs == [] {
    } else {
      assert txs[0].hash in added <==> txs[0].hash !in m;
      FiltersAgree(txs[1..], m, added);
    }
  }

  lemma FilterIsKeepUnknown(m: TxMap, txs: seq<Transaction>)
    ensures KeepAdded(txs, AddAll(m, txs).1) == KeepUnknown(txs, m)
  {
    var added := AddAll(m, txs).1;
    AddAllKeys(m, txs);
    forall i | 0 <= i < |txs|
      ensures txs[i].hash in added <==> txs[i].hash !in m
    {
      assert HasHash(txs, txs[i].hash);
    }
    FiltersAgree(txs, m, added);
  }

  /** `sent` is `txs` at the positions `at`, in their order. */
  ghost predicate IsSelection(txs: seq<Transaction>, at: seq<nat>, sent: seq<Transaction>) {
    && |at| == |sent|
    && (forall k | 0 <= k < |at| :: at[k] < |txs| && sent[k] == txs[at[k]])
    && (forall k, l | 0 <= k < l < |at| :: at[k] < at[l])
  }

  /** The positions are those of the entries whose hash the pool did not have. */
  ghost predicate HitsUnknown(txs: seq<Transaction>, at: seq<nat>, m: TxMap) {
    forall i: nat | i < |txs| :: i in at <==> txs[i].hash !in m
  }

  /** The entries of the batch that the pool did not have, in batch order. */
  ghost predicate SelectsUnknown(txs: seq<Transaction>, sent: seq<Transaction>, m: TxMap) {
    exists at :: IsSelection(txs, at, sent) && HitsUnknown(txs, at, m)
  }

  function ShiftedBy1(at: seq<nat>): (r: seq<nat>)
    ensures |r| == |at| && forall k | 0 <= k < |at| :: r[k] == at[k] + 1
  {
    if at == [] then [] else [at[0] + 1] + ShiftedBy1(at[1..])
  }

  lemma {:induction false} KeepUnknownSelects(txs: seq<Transaction>, m: TxMap) returns (at: seq<nat>)
    ensures IsSelection(txs, at, KeepUnknown(txs, m)) && HitsUnknown(txs, at, m)
  {
    if txs == [] {
      at := [];
    } else {
      var rest := KeepUnknownSelects(txs[1..], m);
      at := (if txs[0].hash in m then [] else [0]) + ShiftedBy1(rest);
      SelectionSkipsFirst(txs, rest, KeepUnknown(txs[1..], m));
      if txs[0].hash in m {
        assert at == ShiftedBy1(rest) && KeepUnknown(txs, m) == KeepUnknown(txs[1..], m);
      } else {
        SelectionTakesFirst(txs, ShiftedBy1(rest), KeepUnknown(txs[1..], m));
      }
      HitsGrowAtFront(txs, m, rest, at);
    }
  }

  lemma SelectionSkipsFirst(txs: seq<Transaction>, at: seq<nat>, sent: seq<Transaction>)
    requires txs != [] && IsSelection(txs[1..], at, sent)
    ensures IsSelection(txs, ShiftedBy1(at), sent)
  {
  }

  lemma SelectionTakesFirst(txs: seq<Transaction>, at: seq<nat>, sent: seq<Transaction>)
    requires txs != [] && IsSelection(txs, at, sent) && forall k | 0 <= k < |at| :: 0 < at[k]
    ensures IsSelection(txs, [0] + at, [txs[0]] + sent)
  {
  }

  lemma HitsGrowAtFront(txs: seq<Transaction>, m: TxMap, rest: seq<nat>, at: seq<nat>)
    requires txs != [] && HitsUnknown(txs[1..], rest, m)
    requires at == (if txs[0].hash in m then [] else [0]) + ShiftedBy1(rest)
    ensures HitsUnknown(txs, at, m)
  {
    forall i: nat | i < |txs|
      ensures i in at <==> txs[i].hash !in m
    {
      if 0 < i {
        assert txs[1..][i - 1] == txs[i];
        ShiftedIn(rest, i - 1);
      } else {
        assert 0 !in ShiftedBy1(rest);
      }
    }
  }

  lemma ShiftedIn(at: seq<nat>, i: nat)
    ensures i + 1 in ShiftedBy1(at) <==> i in at
  {
    if i in at {
      var k :| 0 <= k < |at| && at[k] == i;
      assert ShiftedBy1(at)[k] == i + 1;
    }
  }

  /** Filtering the batch by the reported hashes sends the entries that were not in
      the pool before the call, in batch order, each as often as it is in the
      batch. */
  lemma BroadcastKeepsExactlyNew(m: TxMap, txs: seq<Transaction>)
    ensures
      var sent := KeepAdded(txs, AddAll(m, txs).1);
      && SelectsUnknown(txs, sent, m)
      && (forall tx :: multiset(sent)[tx] == if tx.hash in m then 0 else multiset(txs)[tx])
  {
    FilterIsKeepUnknown(m, txs);
    var at := KeepUnknownSelects(txs, m);
    forall tx
      ensures multiset(KeepUnknown(txs, m))[tx] == if tx.hash in m then 0 else multiset(txs)[tx]
    {
      KeepUnknownCounts(txs, m, tx);
    }
  }

  lemma {:induction false} KeepUnknownCounts(txs: seq<Transaction>, m: TxMap, tx: Transaction)
    ensures multiset(KeepUnknown(txs, m))[tx] == if tx.hash in m then 0 else multiset(txs)[tx]
  {
    if txs == [] {
    } else {
      KeepUnknownCounts(txs[1..], m, tx);
      assert txs == [txs[0]] + txs[1..];
    }
  }

  // ----- The object -----

  class PoolTx {
    var pool: TxMap

    ghost predicate Valid()
      reads this
    {
      KeyedByHash(pool)
    }

    constructor ()
      ensures Valid() && pool == map[]
    {
      pool := map[];
    }

    method AddTransactions(txs: seq<Transaction>) returns (added: seq<string>)
      requires Valid()
      modifies this
      ensures Valid()
      ensures (pool, added) == AddAll(old(pool), txs)
      ensures ReportsBatch(old(pool), txs, added) && |pool| == |old(pool)| + |added|
      ensures HoldsBatch(old(pool), txs, pool)
    {
      added := [];
      for i := 0 to |txs|
        invariant (pool, added) == AddAll(old(pool), txs[..i])
      {
        var tx := txs[i];
        var known := tx.hash in pool;
        assert txs[..i + 1][..i] == txs[..i];
        pool := pool[tx.hash := tx];
        if !known {
          added := added + [tx.hash];
        }
      }
      assert txs[..|txs|] == txs;
      AddAllMeaning(old(pool), txs);
      AddAllKeepsOthers(old(pool), txs);
    }

    method AddTransaction(tx: Transaction) returns (r: Option<string>)
      requires Valid()
      modifies this
      ensures Valid()
      ensures pool == old(pool)[tx.hash := tx]
      ensures r == (if tx.hash in old(pool) then None else Some(tx.hash))
    {
      var known := tx.hash in pool;
      pool := pool[tx.hash := tx];
      if known {
        return None;
      }
      return Some(tx.hash);
    }

    /** Returns what to report and what to broadcast. */
    method AddTransactionsAndBroadcast(txs: seq<Transaction>) returns (added: seq<string>, sent: seq<Transaction>)
      requires Valid()
      modifies this
      ensures Valid()
      ensures (pool, added) == AddAll(old(pool), txs)
      ensures ReportsBatch(old(pool), txs, added) && HoldsBatch(old(pool), txs, pool)
      ensures SelectsUnknown(txs, sent, old(pool))
      ensures forall tx :: multiset(sent)[tx] == if tx.hash in old(pool) then 0 else multiset(txs)[tx]
    {
      added := AddTransactions(txs);
      sent := KeepAdded(txs, added);
      BroadcastKeepsExactlyNew(old(pool), txs);
    }

    /** Removes and returns the first transaction in key order. */
    method Next() returns (r: Option<Transaction>)
      requires Valid()
      modifies this
      ensures Valid()
      ensures old(pool) == map[] ==> r == None && pool == map[]
      ensures old(pool) != map[] ==>
                r.Some? && IsFirst(old(pool), r.value.hash)
                && old(pool)[r.value.hash] == r.value && pool == old(pool) - {r.value.hash}
    {
      if pool == map[] {
        return None;
      }
      var k := FirstKey(pool);
      r := Some(pool[k]);
      pool := pool - {k};
    }

    /** All transactions in key order, by walking the ordered map. */
    method GetAll() returns (txs: seq<Transaction>)
      requires Valid()
      ensures IsListing(pool, txs) && txs == Listing(pool)
    {
      var rest := pool;
      txs := [];
      while rest != map[]
        invariant txs + Listing(rest) == Listing(pool)
        decreases |rest|
      {
        var k := FirstKey(rest);
        ListingMoves(rest, k, txs);
        txs := txs + [rest[k]];
        rest := rest - {k};
      }
      assert txs == Listing(pool);
      ListingIsListing(pool);
    }

    /** With nobody else touching the pool, calling `Next` until it returns None
        yields exactly what `GetAll` would have returned. */
    method Drain() returns (txs: seq<Transaction>)
      requires Valid()
      modifies this
      ensures Valid() && pool == map[]
      ensures IsListing(old(pool), txs) && txs == old(Listing(pool))
    {
      txs := [];
      while true
        invariant Valid()
        invariant txs + Listing(pool) == old(Listing(pool))
        decreases |pool|
      {
        ghost var before := pool;
        var tx := Next();
        if tx == None {
          break;
        }
        var k := tx.value.hash;
        ListingMoves(before, k, txs);
        txs := txs + [tx.value];
      }
      assert txs == old(Listing(pool));
      ListingIsListing(old(pool));
    }
  }
}
