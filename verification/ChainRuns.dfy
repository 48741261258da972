// Whole runs of adds of arbitrary headers, one after another: which parent
// links survive, and when the hash index agrees with the header table. SharedLinks
// has the same for adds that interleave.
module ChainRuns {
  import opened Interface
  import opened BlockTree

  /** The tables after trying every header of `hs` in turn. */
  function AddAll(t: Tables, hs: seq<Header>): Tables
    requires t.headers != map[]
    decreases |hs|
  {
    if hs == [] then t else AddAll(TryAdd(t, hs[0]).0, hs[1..])
  }

  /** The headers of the run that were not refused, in order. */
  function Accepted(t: Tables, hs: seq<Header>): seq<Header>
    requires t.headers != map[]
    decreases |hs|
  {
    if hs == [] then []
    else
      var (t', r) := TryAdd(t, hs[0]);
      (if r.Ok? then [hs[0]] else []) + Accepted(t', hs[1..])
  }

  /** A run tries one header after the other, whatever became of those before. */
  lemma {:induction false} OneMoreAdd(t: Tables, hs: seq<Header>, h: Header)
    requires WellFormed(t.headers)
    ensures WellFormed(AddAll(t, hs).headers)
    ensures AddAll(t, hs + [h]) == TryAdd(AddAll(t, hs), h).0
    ensures Accepted(t, hs + [h]) == Accepted(t, hs) + (if TryAdd(AddAll(t, hs), h).1.Ok? then [h] else [])
    decreases |hs|
  {
    RunKeepsWellFormed(t, hs);
    if hs == [] {
      assert hs + [h] == [h] && [h][1..] == [];
      assert AddAll(t, [h]) == AddAll(TryAdd(t, h).0, []);
      assert Accepted(TryAdd(t, h).0, []) == [];
    } else {
      assert (hs + [h])[1..] == hs[1..] + [h];
      TryAddTables(t, hs[0]);
      OneMoreAdd(TryAdd(t, hs[0]).0, hs[1..], h);
    }
  }

  lemma {:induction false} RunKeepsWellFormed(t: Tables, hs: seq<Header>)
    requires WellFormed(t.headers)
    ensures WellFormed(AddAll(t, hs).headers)
    ensures Last(t.headers) <= Last(AddAll(t, hs).headers)
    decreases |hs|
  {
    if hs == [] {
    } else {
      TryAddTables(t, hs[0]);
      RunKeepsWellFormed(TryAdd(t, hs[0]).0, hs[1..]);
    }
  }

  // ----- Links -----

  /** An accept establishes the link to its parent, leaves every other link
      alone except the one directly above, and that one then holds exactly when
      the new hash is the parent hash stored there. */
  lemma AcceptAndLinks(t: Tables, h: Header)
    requires WellFormed(t.headers) && TryAdd(t, h).1.Ok?
    ensures
      var hs' := TryAdd(t, h).0.headers;
      && (h != Genesis() ==> LinkAt(hs', h.number))
      && (forall k: nat | k != h.number && k != h.number + 1 :: LinkAt(hs', k) <==> LinkAt(t.headers, k))
      && (h.number + 1 in t.headers ==>
            (LinkAt(hs', h.number + 1) <==> h.hash == t.headers[h.number + 1].parentHash))
  {
    TryAddOutcome(t, h);
    TryAddTables(t, h);
  }

  /** The header would replace a block that another block already builds on by
      one with a different hash. */
  ghost predicate Undercuts(t: Tables, h: Header) {
    h.number + 1 in t.headers && h.number in t.headers && t.headers[h.number].hash != h.hash
  }

  /** On a linked chain an accept keeps every link if and only if it does not
      undercut, which the caller can see before the call. */
  lemma AcceptKeepsChainLinkedIff(t: Tables, h: Header)
    requires WellFormed(t.headers) && Linked(t.headers) && TryAdd(t, h).1.Ok?
    ensures Linked(TryAdd(t, h).0.headers) <==> !Undercuts(t, h)
  {
    var hs' := TryAdd(t, h).0.headers;
    TryAddOutcome(t, h);
    TryAddTables(t, h);
    AcceptAndLinks(t, h);
    if h.number + 1 in t.headers {
      assert LinkAt(t.headers, h.number + 1);
      assert h.number + 1 in hs';
      if Undercuts(t, h) {
        assert !LinkAt(hs', h.number + 1);
      }
    }
    if !Undercuts(t, h) {
      forall k: nat | 0 < k && k in hs'
        ensures LinkAt(hs', k)
      {
        if k == h.number {
        } else if k == h.number + 1 {
        } else {
          assert LinkAt(t.headers, k);
        }
      }
    }
  }

  /** The chain is linked at the start of the run and after each of its adds. */
  ghost predicate LinkedThroughout(t: Tables, hs: seq<Header>)
    requires WellFormed(t.headers)
    decreases |hs|
  {
    Linked(t.headers) && (hs != [] ==> (TryAddTables(t, hs[0]); LinkedThroughout(TryAdd(t, hs[0]).0, hs[1..])))
  }

  ghost predicate NeverUndercuts(t: Tables, hs: seq<Header>)
    requires WellFormed(t.headers)
    decreases |hs|
  {
    hs != [] ==>
      && (TryAdd(t, hs[0]).1.Ok? ==> !Undercuts(t, hs[0]))
      && (TryAddTables(t, hs[0]); NeverUndercuts(TryAdd(t, hs[0]).0, hs[1..]))
  }

  lemma {:induction false} LinkedThroughoutIff(t: Tables, hs: seq<Header>)
    requires WellFormed(t.headers) && Linked(t.headers)
    ensures LinkedThroughout(t, hs) <==> NeverUndercuts(t, hs)
    decreases |hs|
  {
    if hs == [] {
    } else {
      var (t', r) := TryAdd(t, hs[0]);
      TryAddTables(t, hs[0]);
      if r.Ok? {
        AcceptKeepsChainLinkedIff(t, hs[0]);
      }
      if Linked(t'.headers) {
        LinkedThroughoutIff(t', hs[1..]);
      }
    }
  }

  /** No two of the headers share a number with different hashes. */
  ghost predicate OneHashPerNumber(hs: seq<Header>) {
    forall a, b | a in hs && b in hs && a.number == b.number :: a.hash == b.hash
  }

  ghost predicate StoredHashesKept(t: Tables, hs: seq<Header>) {
    forall a | a in hs && a.number in t.headers :: a.hash == t.headers[a.number].hash
  }

  lemma {:induction false} NoConflictNeverUndercuts(t: Tables, hs: seq<Header>)
    requires WellFormed(t.headers)
    requires OneHashPerNumber(Accepted(t, hs)) && StoredHashesKept(t, Accepted(t, hs))
    ensures NeverUndercuts(t, hs)
    decreases |hs|
  {
    if hs == [] {
    } else {
      var h := hs[0];
      var (t', r) := TryAdd(t, h);
      TryAddTables(t, h);
      var rest := Accepted(t', hs[1..]);
      assert forall a | a in rest :: a in Accepted(t, hs);
      if r.Ok? {
        assert h in Accepted(t, hs);
        assert !Undercuts(t, h);
        assert forall a | a in rest && a.number in t'.headers :: a.hash == t'.headers[a.number].hash;
      }
      NoConflictNeverUndercuts(t', hs[1..]);
    }
  }

  /** A run from a fresh chain in which no two accepted headers disagree on the
      hash of a number leaves every adjacent pair linked, back to genesis, and
      did so after each add. */
  lemma ConflictFreeRunStaysLinked(hs: seq<Header>)
    requires OneHashPerNumber(Accepted(InitialTables(), hs))
    ensures WellFormed(AddAll(InitialTables(), hs).headers)
    ensures Linked(AddAll(InitialTables(), hs).headers)
    ensures LinkedThroughout(InitialTables(), hs)
  {
    var t := InitialTables();
    AcceptedAtZeroIsGenesis(t, hs);
    NoConflictNeverUndercuts(t, hs);
    LinkedThroughoutIff(t, hs);
    LinkedAtTheEnd(t, hs);
    RunKeepsWellFormed(t, hs);
  }

  lemma {:induction false} AcceptedAtZeroIsGenesis(t: Tables, hs: seq<Header>)
    requires WellFormed(t.headers)
    ensures forall a | a in Accepted(t, hs) && a.number == 0 :: a == Genesis()
    decreases |hs|
  {
    if hs == [] {
    } else {
      TryAddOutcome(t, hs[0]);
      TryAddTables(t, hs[0]);
      AcceptedAtZeroIsGenesis(TryAdd(t, hs[0]).0, hs[1..]);
    }
  }

  lemma {:induction false} LinkedAtTheEnd(t: Tables, hs: seq<Header>)
    requires WellFormed(t.headers) && LinkedThroughout(t, hs)
    ensures Linked(AddAll(t, hs).headers)
    decreases |hs|
  {
    if hs == [] {
    } else {
      TryAddTables(t, hs[0]);
      LinkedAtTheEnd(TryAdd(t, hs[0]).0, hs[1..]);
    }
  }

  function Block(number: nat, parentHash: string, hash: string): Header {
    Header(number, parentHash, "", 0, 0, hash)
  }

  /** Without that condition links can break: replacing block 1 after block 2
      was built on it is reported `AlreadyInChain` and unlinks block 2. */
  lemma ReplacingABlockCanUnlink()
    ensures
      var run := [Block(1, GENESIS_HASH, "a"), Block(2, "a", "b"), Block(1, GENESIS_HASH, "c")];
      var before := AddAll(InitialTables(), run[..2]);
      && WellFormed(before.headers)
      && Linked(before.headers)
      && TryAdd(before, run[2]).1 == Ok(AlreadyInChain)
      && TryAdd(before, run[2]).0.headers[1] == run[2]
      && !Linked(TryAdd(before, run[2]).0.headers)
  {
    var t0 := InitialTables();
    var h1, h2, h3 := Block(1, GENESIS_HASH, "a"), Block(2, "a", "b"), Block(1, GENESIS_HASH, "c");
    var run := [h1, h2, h3];
    TryAddOutcome(t0, h1);
    TryAddTables(t0, h1);
    var t1 := TryAdd(t0, h1).0;
    AcceptKeepsChainLinkedIff(t0, h1);
    TryAddOutcome(t1, h2);
    TryAddTables(t1, h2);
    var t2 := TryAdd(t1, h2).0;
    AcceptKeepsChainLinkedIff(t1, h2);
    assert run[..2] == [h1, h2];
    assert [h1, h2][1..] == [h2];
    assert AddAll(t0, run[..2]) == AddAll(t1, [h2]) == AddAll(t2, []) == t2;
    TryAddOutcome(t2, h3);
    TryAddTables(t2, h3);
    AcceptKeepsChainLinkedIff(t2, h3);
    assert Undercuts(t2, h3);
  }

  // ----- The hash index -----

  /** What a linear scan of the header table from `n` down to 0 finds. */
  function ScanForHash(hs: HeaderTable, hash: string, n: nat): Result<Header, Error> {
    if n in hs && hs[n].hash == hash then Ok(hs[n])
    else if n == 0 then Err(BlockHeaderNotFound)
    else ScanForHash(hs, hash, n - 1)
  }

  ghost predicate IndexInTable(t: Tables) {
    forall x | x in t.index :: t.index[x] in t.headers
  }

  /** Every hash ever accepted stays resolvable, whatever is added later. */
  lemma {:induction false} AcceptedHashesStayResolvable(t: Tables, hs: seq<Header>)
    requires WellFormed(t.headers) && IndexInTable(t)
    ensures WellFormed(AddAll(t, hs).headers) && IndexInTable(AddAll(t, hs))
    ensures forall x | x in t.index :: x in AddAll(t, hs).index
    ensures forall a | a in Accepted(t, hs) :: LookupHash(AddAll(t, hs), a.hash).Ok?
    decreases |hs|
  {
    if hs == [] {
    } else {
      TryAddTables(t, hs[0]);
      AcceptedHashesStayResolvable(TryAdd(t, hs[0]).0, hs[1..]);
    }
  }

  /** A lookup by hash is a scan of the table from the tip down, for every hash. */
  ghost predicate Agrees(t: Tables)
    requires t.headers != map[]
  {
    forall x :: LookupHash(t, x) == ScanForHash(t.headers, x, Last(t.headers))
  }

  /** The scan finds the topmost block carrying the hash. */
  lemma {:induction false} ScanFindsTopmost(hs: HeaderTable, hash: string, n: nat)
    requires WellFormed(hs) && n <= Last(hs)
    ensures
      match ScanForHash(hs, hash, n)
      case Ok(h) =>
        && h.number <= n && h.number in hs && hs[h.number] == h && h.hash == hash
        && (forall k | k in hs && h.number < k <= n :: hs[k].hash != hash)
      case Err(e) => e == BlockHeaderNotFound && forall k | k in hs && k <= n :: hs[k].hash != hash
  {
    if hs[n].hash == hash {
    } else if n == 0 {
    } else {
      ScanFindsTopmost(hs, hash, n - 1);
    }
  }

  lemma TopIndexMeansScan(t: Tables, x: string)
    requires WellFormed(t.headers) && TopIndex(t)
    ensures LookupHash(t, x) == ScanForHash(t.headers, x, Last(t.headers))
  {
    ScanFindsTopmost(t.headers, x, Last(t.headers));
  }

  /** So the index agrees with the scan if and only if it is the index of the
      topmost stored hashes. */
  lemma AgreesIffTopIndex(t: Tables)
    requires WellFormed(t.headers) && IndexInTable(t)
    ensures Agrees(t) <==> TopIndex(t)
  {
    if TopIndex(t) {
      forall x
        ensures LookupHash(t, x) == ScanForHash(t.headers, x, Last(t.headers))
      {
        TopIndexMeansScan(t, x);
      }
    }
    if Agrees(t) {
      forall x | x in t.index
        ensures t.headers[t.index[x]].hash == x
      {
        ScanFindsTopmost(t.headers, x, Last(t.headers));
        assert LookupHash(t, x) == ScanForHash(t.headers, x, Last(t.headers));
      }
      forall k | k in t.headers
        ensures t.headers[k].hash in t.index && k <= t.index[t.headers[k].hash]
      {
        var x := t.headers[k].hash;
        ScanFindsTopmost(t.headers, x, Last(t.headers));
        assert LookupHash(t, x) == ScanForHash(t.headers, x, Last(t.headers));
      }
    }
  }

  /** The header would take the slot its index entry points the old hash at, or
      would pull an index entry down from a higher block with the same hash. */
  ghost predicate Misleads(t: Tables, h: Header) {
    || (h.number in t.headers && t.headers[h.number].hash != h.hash
        && t.headers[h.number].hash in t.index && t.index[t.headers[h.number].hash] == h.number)
    || (h.hash in t.index && h.number < t.index[h.hash])
  }

  lemma InsertKeepsTopIndexIff(t: Tables, h: Header)
    requires TopIndex(t)
    ensures TopIndex(Insert(t, h)) <==> !Misleads(t, h)
  {
    var t' := Insert(t, h);
    if h.number in t.headers && t.headers[h.number].hash != h.hash {
      var x := t.headers[h.number].hash;
      assert x in t'.index && t'.index[x] == t.index[x];
    }
    if h.hash in t.index && h.number < t.index[h.hash] {
      var k := t.index[h.hash];
      assert k in t'.headers && t'.headers[k].hash == h.hash;
    }
  }

  /** An accept keeps the agreement if and only if it does not mislead, which the
      caller can see before the call. */
  lemma AcceptKeepsAgreementIff(t: Tables, h: Header)
    requires WellFormed(t.headers) && IndexInTable(t) && Agrees(t) && TryAdd(t, h).1.Ok?
    ensures WellFormed(TryAdd(t, h).0.headers) && IndexInTable(TryAdd(t, h).0)
    ensures Agrees(TryAdd(t, h).0) <==> !Misleads(t, h)
  {
    TryAddTables(t, h);
    AgreesIffTopIndex(t);
    InsertKeepsTopIndexIff(t, h);
    AgreesIffTopIndex(Insert(t, h));
  }

  /** The index agrees with the scan at the start of the run and after each of
      its adds. */
  ghost predicate AgreesThroughout(t: Tables, hs: seq<Header>)
    requires WellFormed(t.headers)
    decreases |hs|
  {
    Agrees(t) && (hs != [] ==> (TryAddTables(t, hs[0]); AgreesThroughout(TryAdd(t, hs[0]).0, hs[1..])))
  }

  ghost predicate NeverMisleads(t: Tables, hs: seq<Header>)
    requires WellFormed(t.headers)
    decreases |hs|
  {
    hs != [] ==>
      && (TryAdd(t, hs[0]).1.Ok? ==> !Misleads(t, hs[0]))
      && (TryAddTables(t, hs[0]); NeverMisleads(TryAdd(t, hs[0]).0, hs[1..]))
  }

  lemma {:induction false} AgreesThroughoutIff(t: Tables, hs: seq<Header>)
    requires WellFormed(t.headers) && IndexInTable(t) && Agrees(t)
    ensures AgreesThroughout(t, hs) <==> NeverMisleads(t, hs)
    decreases |hs|
  {
    if hs == [] {
    } else {
      var (t', r) := TryAdd(t, hs[0]);
      TryAddTables(t, hs[0]);
      if r.Ok? {
        AcceptKeepsAgreementIff(t, hs[0]);
      }
      if Agrees(t') {
        AgreesThroughoutIff(t', hs[1..]);
      }
    }
  }

  /** In a run from a fresh chain the index agrees with the scan after every add
      if and only if no accepted header misleads it. */
  lemma FreshIndexAgreesIff(hs: seq<Header>)
    ensures AgreesThroughout(InitialTables(), hs) <==> NeverMisleads(InitialTables(), hs)
  {
    FreshIndexAgrees();
    AgreesThroughoutIff(InitialTables(), hs);
  }

  lemma FreshIndexAgrees()
    ensures IndexInTable(InitialTables()) && TopIndex(InitialTables()) && Agrees(InitialTables())
  {
    AgreesIffTopIndex(InitialTables());
  }

  /** Number and hash determine each other among these headers. */
  ghost predicate PairedOneToOne(hs: seq<Header>) {
    forall a, b | a in hs && b in hs :: a.number == b.number <==> a.hash == b.hash
  }

  ghost predicate PairedWithTable(t: Tables, hs: seq<Header>) {
    forall a, k | a in hs && k in t.headers :: a.number == k <==> a.hash == t.headers[k].hash
  }

  lemma PairedWithTableAfter(t: Tables, h: Header, rest: seq<Header>)
    requires PairedWithTable(t, rest) && PairedOneToOne([h] + rest)
    ensures PairedWithTable(Insert(t, h), rest)
  {
    var t' := Insert(t, h);
    forall a, k | a in rest && k in t'.headers
      ensures a.number == k <==> a.hash == t'.headers[k].hash
    {
      if k == h.number {
        assert a in [h] + rest && h in [h] + rest;
      }
    }
  }

  lemma PairedHeaderDoesNotMislead(t: Tables, h: Header)
    requires TopIndex(t) && PairedWithTable(t, [h])
    ensures !Misleads(t, h) && TopIndex(Insert(t, h))
  {
    assert h in [h];
    if h.hash in t.index {
      assert t.index[h.hash] in t.headers;
    }
    InsertKeepsTopIndexIff(t, h);
  }

  lemma {:induction false} PairedRunNeverMisleads(t: Tables, hs: seq<Header>)
    requires WellFormed(t.headers) && TopIndex(t)
    requires PairedOneToOne(Accepted(t, hs)) && PairedWithTable(t, Accepted(t, hs))
    ensures NeverMisleads(t, hs) && TopIndex(AddAll(t, hs))
    decreases |hs|
  {
    if hs == [] {
    } else {
      var h := hs[0];
      var (t', r) := TryAdd(t, h);
      TryAddTables(t, h);
      var rest := Accepted(t', hs[1..]);
      if r.Ok? {
        assert Accepted(t, hs) == [h] + rest;
        assert forall a | a in rest :: a in [h] + rest;
        assert h in [h] + rest;
        PairedHeaderDoesNotMislead(t, h);
        PairedWithTableAfter(t, h, rest);
      } else {
        assert Accepted(t, hs) == rest;
      }
      PairedRunNeverMisleads(t', hs[1..]);
    }
  }

  /** That covers every run from a fresh chain whose accepted headers, with
      genesis, pair number and hash one-to-one. */
  lemma IndexAgreesWithScan(hs: seq<Header>, hash: string)
    requires PairedOneToOne([Genesis()] + Accepted(InitialTables(), hs))
    ensures NeverMisleads(InitialTables(), hs) && AgreesThroughout(InitialTables(), hs)
    ensures
      var t := AddAll(InitialTables(), hs);
      && t.headers != map[]
      && LookupHash(t, hash) == ScanForHash(t.headers, hash, Last(t.headers))
  {
    var t0 := InitialTables();
    var all := [Genesis()] + Accepted(t0, hs);
    assert forall a | a in Accepted(t0, hs) :: a in all;
    assert Genesis() in all;
    FreshIndexAgrees();
    PairedRunNeverMisleads(t0, hs);
    FreshIndexAgreesIff(hs);
    RunKeepsWellFormed(t0, hs);
    TopIndexMeansScan(AddAll(t0, hs), hash);
  }

  /** When a header misleads, the index can answer with one that does not carry
      the hash asked for: the replaced hash still resolves, to the replacement. */
  lemma ReplacedHashResolvesToReplacement()
    ensures
      var t := AddAll(InitialTables(), [Block(1, GENESIS_HASH, "a"), Block(1, GENESIS_HASH, "c")]);
      && t.headers != map[]
      && LookupHash(t, "a") == Ok(Block(1, GENESIS_HASH, "c"))
      && ScanForHash(t.headers, "a", Last(t.headers)) == Err(BlockHeaderNotFound)
  {
    var t0 := InitialTables();
    var h1, h2 := Block(1, GENESIS_HASH, "a"), Block(1, GENESIS_HASH, "c");
    TryAddOutcome(t0, h1);
    TryAddTables(t0, h1);
    var t1 := TryAdd(t0, h1).0;
    TryAddOutcome(t1, h2);
    TryAddTables(t1, h2);
    var t2 := TryAdd(t1, h2).0;
    assert [h1, h2][1..] == [h2];
    assert AddAll(t0, [h1, h2]) == AddAll(t1, [h2]) == AddAll(t2, []) == t2;
    assert "a" != "c" by {
      assert "a"[0] != "c"[0];
    }
    assert |GENESIS_HASH| == 64 && GENESIS_HASH != "a";
    assert t2.headers == map[0 := Genesis(), 1 := h2];
    assert ScanForHash(t2.headers, "a", 1) == ScanForHash(t2.headers, "a", 0);
  }
}
