// How a node answers a request for headers (src/net/chain.rs:218-243).
module Serving {
  import opened Interface
  import opened BlockTree

  /** What the serving loop collects from `number` on: it follows the stored
      header's own number and stops at the first gap. */
  function Serve(hs: HeaderTable, number: nat, limit: nat): seq<Header>
    decreases limit
  {
    if limit == 0 || number !in hs then []
    else [hs[number]] + Serve(hs, hs[number].number + 1, limit - 1)
  }

  /** Blocks start, start+1, ..., start+count-1 of the table. */
  function Slice(hs: HeaderTable, start: nat, count: nat): (r: seq<Header>)
    requires forall k | start <= k < start + count :: k in hs
    ensures |r| == count
    ensures forall i | 0 <= i < count :: r[i] == hs[start + i]
    decreases count
  {
    if count == 0 then [] else [hs[start]] + Slice(hs, start + 1, count - 1)
  }

  function ServedCount(hs: HeaderTable, start: nat, limit: nat): nat
    requires hs != map[]
  {
    Min(limit, if start <= Last(hs) then Last(hs) + 1 - start else 0)
  }

  /** The answer is exactly the ordered slice from the requested block, cut at
      the limit and at the tip. */
  lemma {:induction false} ServeIsSlice(hs: HeaderTable, start: nat, limit: nat)
    requires WellFormed(hs)
    ensures Serve(hs, start, limit) == Slice(hs, start, ServedCount(hs, start, limit))
    decreases limit
  {
    if limit == 0 || start !in hs {
    } else {
      ServeIsSlice(hs, start + 1, limit - 1);
    }
  }

  /** Each header names the one before it as its parent. */
  ghost predicate LinkedSeq(s: seq<Header>) {
    forall i | 0 < i < |s| :: s[i].parentHash == s[i - 1].hash && s[i].number == s[i - 1].number + 1
  }

  /** A linked chain gives linked answers. */
  lemma ServedHeadersAreLinked(hs: HeaderTable, start: nat, limit: nat)
    requires WellFormed(hs) && Linked(hs)
    ensures LinkedSeq(Serve(hs, start, limit))
  {
    ServeIsSlice(hs, start, limit);
    var s := Serve(hs, start, limit);
    forall i | 0 < i < |s|
      ensures s[i].parentHash == s[i - 1].hash && s[i].number == s[i - 1].number + 1
    {
      assert s[i - 1] == hs[start + i - 1];
      assert LinkAt(hs, start + i);
    }
  }
}
