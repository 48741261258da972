// The header chain of one node (src/blocktree.rs): a number -> header table, a
// hash -> number index, and the operations that read and extend them.
module BlockTree {
  import opened Interface

  datatype Error = Invalid | BlockHeaderNotFound

  datatype AddedBlockResult = ExtendTip | AlreadyInChain

  // `Panicked` is the branch of `mine_block` that aborts the program.
  datatype MineBlockResult = Mined(header: Header) | BlockFallingBehind | Panicked(error: Error)

  type HeaderTable = map<nat, Header>

  datatype Tables = Tables(headers: HeaderTable, index: map<string, nat>)

  // The digest `calculate_hash` gives for the genesis fields. The examples in
  // ChainRuns use its length, to tell it from their short hashes; nothing else
  // depends on its value.
  const GENESIS_HASH := "136a0fb5d86d2175d74062cb38324f88cc4437df6145d84140b906e092d94a51"

  function Genesis(): Header {
    Header(0, "genesis", "0x", 1705551177, 17012, GENESIS_HASH)
  }

  /** The tables `Chain::new` writes. */
  function InitialTables(): (t: Tables)
    ensures WellFormed(t.headers) && Linked(t.headers)
    ensures Last(t.headers) == 0
  {
    var hs: HeaderTable := map[0 := Genesis()];
    assert 0 in hs;
    assert Last(hs) in hs;
    Tables(hs, map[GENESIS_HASH := 0])
  }

  // ----- The last key of an ordered table -----

  lemma MaxExists(s: set<nat>)
    requires s != {}
    ensures exists k :: k in s && forall j | j in s :: j <= k
  {
    var x :| x in s;
    var rest := s - {x};
    if rest == {} {
      assert s == {x};
    } else {
      MaxExists(rest);
      var k :| k in rest && forall j | j in rest :: j <= k;
      assert forall j | j in s :: j == x || j in rest;
      if x <= k {
        assert k in s && forall j | j in s :: j <= k;
      } else {
        assert x in s && forall j | j in s :: j <= x;
      }
    }
  }

  /** The key of the last entry of the header table. */
  function Last(hs: HeaderTable): (k: nat)
    requires hs != map[]
    ensures k in hs
    ensures forall j | j in hs :: j <= k
  {
    MaxExists(hs.Keys);
    var k :| k in hs && forall j | j in hs :: j <= k;
    k
  }

  lemma LastAfterInsert(hs: HeaderTable, k: nat, h: Header)
    requires hs != map[]
    ensures Last(hs[k := h]) == Max(Last(hs), k)
  {
    var after := hs[k := h];
    assert k in after && Last(hs) in after;
    assert Last(after) == k || Last(after) in hs;
  }

  // ----- What every reachable table looks like -----

  /** Numbers are exactly 0..Last, each header sits under its own number, and
      number 0 is genesis. */
  ghost predicate WellFormed(hs: HeaderTable) {
    && hs != map[]
    && (forall k: nat :: k in hs <==> k <= Last(hs))
    && (forall k | k in hs :: hs[k].number == k)
    && hs[0] == Genesis()
  }

  /** The block at `k` names the block below it as its parent. */
  ghost predicate LinkAt(hs: HeaderTable, k: nat) {
    0 < k && k in hs && k - 1 in hs && hs[k].parentHash == hs[k - 1].hash
  }

  ghost predicate Linked(hs: HeaderTable) {
    forall k: nat {:trigger LinkAt(hs, k)} | 0 < k && k in hs :: LinkAt(hs, k)
  }

  /** The index knows exactly the hashes that are stored, each at the greatest
      number it is stored under. */
  ghost predicate TopIndex(t: Tables) {
    && (forall x | x in t.index :: t.index[x] in t.headers && t.headers[t.index[x]].hash == x)
    && (forall k | k in t.headers :: t.headers[k].hash in t.index && k <= t.index[t.headers[k].hash])
  }

  // ----- The operations as functions of the tables -----

  function Lookup(hs: HeaderTable, number: nat): Result<Header, Error> {
    if number in hs then Ok(hs[number]) else Err(BlockHeaderNotFound)
  }

  function LookupHash(t: Tables, hash: string): Result<Header, Error> {
    if hash in t.index then Lookup(t.headers, t.index[hash]) else Err(BlockHeaderNotFound)
  }

  // A header numbered 0 that is not genesis makes the program compute `0 - 1`
  // on a u64. Without overflow checks that wraps to 2^64 - 1, a number that is
  // never stored, so the parent lookup fails; a build with overflow checks
  // aborts there instead.
  function Validate(hs: HeaderTable, h: Header): Result<(), Error> {
    if h == Genesis() then Ok(())
    else if h.number == 0 then Err(BlockHeaderNotFound)
    else
      match Lookup(hs, h.number - 1)
      case Err(e) => Err(e)
      case Ok(parent) =>
        if parent.hash != h.parentHash then Err(Invalid)
        else if parent.number + 1 != h.number then Err(Invalid)
        else Ok(())
  }

  function Insert(t: Tables, h: Header): Tables {
    Tables(t.headers[h.number := h], t.index[h.hash := h.number])
  }

  function Report(oldTip: nat, newTip: nat): AddedBlockResult {
    if oldTip < newTip then ExtendTip else AlreadyInChain
  }

  /** `try_add_block_header` with nothing else touching the tables meanwhile. */
  function TryAdd(t: Tables, h: Header): (Tables, Result<AddedBlockResult, Error>)
    requires t.headers != map[]
  {
    match Validate(t.headers, h)
    case Err(e) => (t, Err(e))
    case Ok(_) =>
      var t' := Insert(t, h);
      (t', Ok(Report(t.headers[Last(t.headers)].number, t'.headers[Last(t'.headers)].number)))
  }

  // ----- What an add means -----

  /** Which of the four outcomes an add has, in terms of the chain before it. */
  lemma TryAddOutcome(t: Tables, h: Header)
    requires WellFormed(t.headers)
    ensures
      var tip := Last(t.headers);
      var r := TryAdd(t, h).1;
      && (r == Err(BlockHeaderNotFound) <==> h != Genesis() && (h.number == 0 || tip + 1 < h.number))
      && (r == Err(Invalid) <==>
          1 <= h.number <= tip + 1 && h.parentHash != t.headers[h.number - 1].hash)
      && (r == Ok(ExtendTip) <==> h.number == tip + 1 && h.parentHash == t.headers[tip].hash)
      && (r == Ok(AlreadyInChain) <==>
          h == Genesis() || (1 <= h.number <= tip && h.parentHash == t.headers[h.number - 1].hash))
  {
    LastAfterInsert(t.headers, h.number, h);
  }

  /** An add keeps the table well formed, never lowers the tip, touches at most
      the slot of its own number, and forgets no number and no hash. */
  lemma TryAddTables(t: Tables, h: Header)
    requires WellFormed(t.headers)
    ensures
      var (t', r) := TryAdd(t, h);
      && WellFormed(t'.headers)
      && (r.Err? ==> t' == t)
      && (r.Ok? ==> t'.headers == t.headers[h.number := h] && t'.index == t.index[h.hash := h.number])
      && Last(t'.headers) == (if r == Ok(ExtendTip) then Last(t.headers) + 1 else Last(t.headers))
  {
    TryAddOutcome(t, h);
    LastAfterInsert(t.headers, h.number, h);
  }

  /** The header `mine_block` builds on a tip; nonce and hash are random. */
  function MinedOn(tip: Header, nonce: nat, hash: string): Header {
    Header(tip.number + 1, tip.hash, "", 0, nonce, hash)
  }

  lemma ExtendKeepsLinked(t: Tables, h: Header)
    requires WellFormed(t.headers)
    requires h.number == Last(t.headers) + 1 && h.parentHash == t.headers[Last(t.headers)].hash
    ensures Linked(t.headers) ==> Linked(t.headers[h.number := h])
  {
    var hs' := t.headers[h.number := h];
    if Linked(t.headers) {
      forall k: nat | 0 < k && k in hs'
        ensures LinkAt(hs', k)
      {
        assert k != h.number ==> LinkAt(t.headers, k);
      }
    }
  }

  // ----- The shared object -----

  class Chain {
    var headers: HeaderTable
    var index: map<string, nat>

    ghost predicate Valid()
      reads this
    {
      WellFormed(headers)
    }

    function View(): Tables
      reads this
    {
      Tables(headers, index)
    }

    /** Opens a database that is new or was left by an earlier run: genesis is
        written, and whatever else is stored stays. */
    constructor (existing: Tables)
      requires existing == Tables(map[], map[]) || WellFormed(existing.headers)
      ensures Valid()
      ensures existing == Tables(map[], map[]) ==> View() == InitialTables()
      ensures existing != Tables(map[], map[]) ==> headers == existing.headers
      ensures index == existing.index[GENESIS_HASH := 0]
      ensures Linked(existing.headers) ==> Linked(headers)
    {
      headers := existing.headers[Genesis().number := Genesis()];
      index := existing.index[Genesis().hash := Genesis().number];
      new;
      if existing == Tables(map[], map[]) {
        assert View() == InitialTables();
      } else {
        assert headers == existing.headers;
      }
    }

    method GetHeaderByBlockNumber(number: nat) returns (r: Result<Header, Error>)
      ensures r == Lookup(headers, number)
      ensures r.Ok? ==> number in headers && r.value == headers[number]
      ensures r.Err? ==> number !in headers && r.error == BlockHeaderNotFound
      ensures Valid() ==> (r.Ok? <==> number <= Last(headers)) && (r.Ok? ==> r.value.number == number)
    {
      if number in headers {
        return Ok(headers[number]);
      }
      return Err(BlockHeaderNotFound);
    }

    method GetHeaderByHash(hash: string) returns (r: Result<Header, Error>)
      ensures r == LookupHash(View(), hash)
      ensures r.Ok? <==> hash in index && index[hash] in headers
      ensures r.Ok? ==> r.value == headers[index[hash]]
      ensures r.Err? ==> r.error == BlockHeaderNotFound
      ensures Valid() && TopIndex(View()) ==>
                && (r.Ok? <==> exists k :: k in headers && headers[k].hash == hash)
                && (r.Ok? ==> r.value.hash == hash && headers[index[hash]] == r.value
                              && forall k | k in headers && headers[k].hash == hash :: k <= r.value.number)
    {
      if hash in index {
        r := GetHeaderByBlockNumber(index[hash]);
        return;
      }
      return Err(BlockHeaderNotFound);
    }

    method Tip() returns (tip: Header)
      requires headers != map[]
      ensures tip == headers[Last(headers)]
      ensures Valid() ==> forall k | k in headers :: headers[k].number <= tip.number
    {
      tip := headers[Last(headers)];
    }

    method ValidateAdjacentBlockHeader(h: Header) returns (r: Result<(), Error>)
      ensures r == Validate(headers, h)
      ensures r.Ok? && h != Genesis() ==>
                0 < h.number && h.number - 1 in headers && headers[h.number - 1].hash == h.parentHash
    {
      if h == Genesis() {
        return Ok(());
      }
      if h.number == 0 {
        return Err(BlockHeaderNotFound);
      }
      var parent := GetHeaderByBlockNumber(h.number - 1);
      match parent
      case Err(e) => return Err(e);
      case Ok(p) =>
        if p.hash != h.parentHash {
          return Err(Invalid);
        }
        if p.number + 1 != h.number {
          return Err(Invalid);
        }
        return Ok(());
    }

    method TryAddBlockHeader(h: Header) returns (r: Result<AddedBlockResult, Error>)
      requires Valid()
      modifies this
      ensures Valid()
      ensures (View(), r) == TryAdd(old(View()), h)
      ensures r.Err? ==> View() == old(View())
      ensures r.Ok? ==> headers == old(headers)[h.number := h] && index == old(index)[h.hash := h.number]
      ensures r == Ok(ExtendTip) <==> h.number == old(Last(headers)) + 1
                                      && h.parentHash == old(headers[Last(headers)].hash)
      ensures Last(headers) == old(Last(headers)) + (if r == Ok(ExtendTip) then 1 else 0)
    {
      TryAddOutcome(View(), h);
      TryAddTables(View(), h);
      var valid := ValidateAdjacentBlockHeader(h);
      if valid.Err? {
        return Err(valid.error);
      }
      var oldTip := Tip();
      headers := headers[h.number := h];
      index := index[h.hash := h.number];
      var newTip := Tip();
      if oldTip.number < newTip.number {
        return Ok(ExtendTip);
      }
      return Ok(AlreadyInChain);
    }

    /** With nobody else adding meanwhile, mining always succeeds and extends
        the chain by one linked block; SharedChain removes that proviso. */
    method MineBlock(nonce: nat, hash: string) returns (r: MineBlockResult)
      requires Valid()
      modifies this
      ensures Valid()
      ensures r == Mined(MinedOn(old(headers[Last(headers)]), nonce, hash))
      ensures r.header.number == old(Last(headers)) + 1 && r.header.parentHash == old(headers[Last(headers)].hash)
      ensures r.header.nonce == nonce && r.header.hash == hash
      ensures r.header.stateRoot == "" && r.header.timestamp == 0
      ensures Last(headers) == old(Last(headers)) + 1
      ensures headers == old(headers)[Last(headers) := r.header]
      ensures index == old(index)[hash := Last(headers)]
      ensures old(Linked(headers)) ==> Linked(headers)
    {
      var prev := Tip();
      var header := MinedOn(prev, nonce, hash);
      ExtendKeepsLinked(View(), header);
      TryAddOutcome(View(), header);
      var added := TryAddBlockHeader(header);
      match added
      case Err(e) => r := Panicked(e);
      case Ok(AlreadyInChain) => r := BlockFallingBehind;
      case Ok(ExtendTip) => r := Mined(header);
    }
  }
}
