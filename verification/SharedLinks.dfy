// Parent links and the hash index on a chain shared by many threads
// (src/blocktree.rs:199-280): an add validates its header and writes it later, so
// what it found may be gone by then.
module SharedLinks {
  import opened Interface
  import opened BlockTree
  import opened ChainRuns
  import opened SharedChain

  // ----- Which writes break a link -----

  /** The parent slot holds the hash the header names. */
  ghost predicate ParentHeld(t: Tables, h: Header) {
    h == Genesis() || (0 < h.number && h.number - 1 in t.headers && t.headers[h.number - 1].hash == h.parentHash)
  }

  /** A write keeps a linked chain linked if and only if the parent it was
      validated against is still in place and it does not undercut. */
  lemma WriteKeepsLinkedIff(t: Tables, h: Header)
    requires WellFormed(t.headers) && Linked(t.headers) && Placeable(t.headers, h)
    ensures Linked(Insert(t, h).headers) <==> ParentHeld(t, h) && !Undercuts(t, h)
  {
    var hs' := Insert(t, h).headers;
    if h == Genesis() {
      assert hs' == t.headers;
    } else {
      assert LinkAt(hs', h.number) <==> ParentHeld(t, h);
      if h.number + 1 in t.headers {
        assert LinkAt(t.headers, h.number + 1);
        assert LinkAt(hs', h.number + 1) <==> !Undercuts(t, h);
      }
      OtherLinksStay(t.headers, h);
    }
  }

  lemma OtherLinksStay(hs: HeaderTable, h: Header)
    requires Linked(hs)
    ensures forall k: nat {:trigger LinkAt(hs[h.number := h], k)} |
              0 < k && k in hs && k != h.number && k != h.number + 1 :: LinkAt(hs[h.number := h], k)
  {
    forall k: nat | 0 < k && k in hs && k != h.number && k != h.number + 1
      ensures LinkAt(hs[h.number := h], k)
    {
      assert LinkAt(hs, k);
    }
  }

  predicate Writes(s: State, step: Step) {
    step.Advance? && step.thread < |s.threads| && s.threads[step.thread].TipRead?
  }

  /** The step writes a header whose parent has been replaced since, or one that
      undercuts. */
  ghost predicate Breaks(s: State, step: Step) {
    Writes(s, step) &&
    var h := s.threads[step.thread].job.header;
    !ParentHeld(s.tables, h) || Undercuts(s.tables, h)
  }

  lemma NextKeepsLinkedIff(s: State, step: Step)
    requires Inv(s) && Linked(s.tables.headers)
    ensures Linked(Next(s, step).tables.headers) <==> !Breaks(s, step)
  {
    if Writes(s, step) {
      assert ThreadOk(s.tables.headers, s.threads[step.thread]);
      WriteKeepsLinkedIff(s.tables, s.threads[step.thread].job.header);
    }
  }

  ghost predicate LinkedInEveryState(s: State, steps: seq<Step>)
    requires s.tables.headers != map[]
    decreases |steps|
  {
    Linked(s.tables.headers) && (steps != [] ==> LinkedInEveryState(Next(s, steps[0]), steps[1..]))
  }

  ghost predicate NeverBreaks(s: State, steps: seq<Step>)
    requires s.tables.headers != map[]
    decreases |steps|
  {
    steps != [] ==> !Breaks(s, steps[0]) && NeverBreaks(Next(s, steps[0]), steps[1..])
  }

  /** Any threads, any headers, any interleaving: the chain is linked in every
      state of the run if and only if no step of it breaks a link. */
  lemma {:induction false} LinkedInEveryStateIff(s: State, steps: seq<Step>)
    requires Inv(s) && Linked(s.tables.headers)
    ensures LinkedInEveryState(s, steps) <==> NeverBreaks(s, steps)
    decreases |steps|
  {
    if steps == [] {
    } else {
      NextKeepsInv(s, steps[0]);
      NextKeepsLinkedIff(s, steps[0]);
      if Linked(Next(s, steps[0]).tables.headers) {
        LinkedInEveryStateIff(Next(s, steps[0]), steps[1..]);
      }
    }
  }

  // ----- Which writes mislead the index -----

  ghost predicate MisleadsIndex(s: State, step: Step) {
    Writes(s, step) && Misleads(s.tables, s.threads[step.thread].job.header)
  }

  ghost predicate AgreesInEveryState(s: State, steps: seq<Step>)
    requires s.tables.headers != map[]
    decreases |steps|
  {
    Agrees(s.tables) && (steps != [] ==> AgreesInEveryState(Next(s, steps[0]), steps[1..]))
  }

  ghost predicate NeverMisleadsIndex(s: State, steps: seq<Step>)
    requires s.tables.headers != map[]
    decreases |steps|
  {
    steps != [] ==> !MisleadsIndex(s, steps[0]) && NeverMisleadsIndex(Next(s, steps[0]), steps[1..])
  }

  lemma NextKeepsAgreementIff(s: State, step: Step)
    requires Inv(s) && IndexInTable(s.tables) && Agrees(s.tables)
    ensures IndexInTable(Next(s, step).tables)
    ensures Agrees(Next(s, step).tables) <==> !MisleadsIndex(s, step)
  {
    if Writes(s, step) {
      var h := s.threads[step.thread].job.header;
      assert ThreadOk(s.tables.headers, s.threads[step.thread]);
      WriteKeepsWellFormed(s.tables, h);
      AgreesIffTopIndex(s.tables);
      InsertKeepsTopIndexIff(s.tables, h);
      AgreesIffTopIndex(Insert(s.tables, h));
    }
  }

  /** The guard on the index needs nothing more between threads: lookup by hash is
      a scan in every state of the run if and only if no write of it misleads. */
  lemma {:induction false} AgreesInEveryStateIff(s: State, steps: seq<Step>)
    requires Inv(s) && IndexInTable(s.tables) && Agrees(s.tables)
    ensures AgreesInEveryState(s, steps) <==> NeverMisleadsIndex(s, steps)
    decreases |steps|
  {
    if steps == [] {
    } else {
      NextKeepsInv(s, steps[0]);
      NextKeepsAgreementIff(s, steps[0]);
      if Agrees(Next(s, steps[0]).tables) {
        AgreesInEveryStateIff(Next(s, steps[0]), steps[1..]);
      }
    }
  }

  // ----- What the run writes -----

  /** The headers written, in order. */
  function Written(s: State, steps: seq<Step>): seq<Header>
    requires s.tables.headers != map[]
    decreases |steps|
  {
    if steps == [] then []
    else
      var rest := Written(Next(s, steps[0]), steps[1..]);
      if Writes(s, steps[0]) then [s.threads[steps[0].thread].job.header] + rest else rest
  }

  /** `h` has been written by a thread that has yet to report. */
  ghost predicate BeingReported(s: State, h: Header) {
    exists i :: 0 <= i < |s.threads| && s.threads[i].Wrote? && s.threads[i].job.header == h
  }

  ghost predicate Accounted(s: State, steps: seq<Step>, e: Finished)
    requires s.tables.headers != map[]
  {
    e in s.log || !e.Reported? || BeingReported(s, e.job.header) || e.job.header in Written(s, steps)
  }

  lemma {:induction false} ReportsAreAccounted(s: State, steps: seq<Step>)
    requires s.tables.headers != map[]
    ensures forall e | e in Run(s, steps).log :: Accounted(s, steps, e)
    decreases |steps|
  {
    if steps == [] {
    } else {
      ReportsAreAccounted(Next(s, steps[0]), steps[1..]);
      forall e | e in Run(s, steps).log
        ensures Accounted(s, steps, e)
      {
        AccountedBefore(s, steps, e);
      }
    }
  }

  lemma AccountedBefore(s: State, steps: seq<Step>, e: Finished)
    requires s.tables.headers != map[] && steps != [] && Accounted(Next(s, steps[0]), steps[1..], e)
    ensures Accounted(s, steps, e)
  {
    var s', step := Next(s, steps[0]), steps[0];
    if e in s'.log && e !in s.log {
      assert s'.log == s.log + [e];
      assert e.Reported? ==> s.threads[step.thread].Wrote? && s.threads[step.thread].job == e.job;
    } else if e !in s'.log && e.Reported? && BeingReported(s', e.job.header) {
      var i :| 0 <= i < |s'.threads| && s'.threads[i].Wrote? && s'.threads[i].job.header == e.job.header;
      if s.threads[i] != s'.threads[i] {
        assert i == step.thread && s.threads[i].TipRead? && s.threads[i].job == s'.threads[i].job;
      }
    }
  }

  /** In every run, an add that came to a report, whichever it is, has written its
      block. */
  lemma ReportedWasWritten(n: nat, steps: seq<Step>, k: nat)
    requires k < |Run(Init(n), steps).log| && Run(Init(n), steps).log[k].Reported?
    ensures Run(Init(n), steps).log[k].job.header in Written(Init(n), steps)
  {
    ReportsAreAccounted(Init(n), steps);
    assert Accounted(Init(n), steps, Run(Init(n), steps).log[k]);
  }

  /** So has a mining attempt that is told it fell behind. */
  lemma FellBehindWasWritten(n: nat, steps: seq<Step>, k: nat)
    requires k < |Run(Init(n), steps).log| && MiningResult(Run(Init(n), steps).log[k]) == BlockFallingBehind
    ensures Run(Init(n), steps).log[k].job.header in Written(Init(n), steps)
  {
    ReportedWasWritten(n, steps, k);
  }

  // ----- No two written headers disagree -----

  /** Everything above genesis was written by the run, and a header past its
      validation still has the parent it was validated against. */
  ghost predicate Settled(written: seq<Header>, s: State)
    requires s.tables.headers != map[]
  {
    && (forall k | k in s.tables.headers && 0 < k :: s.tables.headers[k] in written)
    && (forall i | 0 <= i < |s.threads| && (s.threads[i].Validated? || s.threads[i].TipRead?) ::
          ParentHeld(s.tables, s.threads[i].job.header))
  }

  lemma WriteKeepsParents(written: seq<Header>, t: Tables, h: Header, other: Header)
    requires WellFormed(t.headers) && Placeable(t.headers, h) && ParentHeld(t, other)
    requires OneHashPerNumber(written) && h in written
    requires forall k | k in t.headers && 0 < k :: t.headers[k] in written
    ensures ParentHeld(Insert(t, h), other)
  {
    if other != Genesis() && other.number - 1 == h.number {
      if h.number == 0 {
        assert h == Genesis();
      } else {
        assert t.headers[h.number] in written;
      }
    }
  }

  lemma SettledWriteDoesNotBreak(written: seq<Header>, s: State, step: Step)
    requires Inv(s) && Settled(written, s) && OneHashPerNumber(written)
    requires Writes(s, step) && s.threads[step.thread].job.header in written
    ensures !Breaks(s, step)
  {
    var h := s.threads[step.thread].job.header;
    assert ThreadOk(s.tables.headers, s.threads[step.thread]);
    if h.number in s.tables.headers && 0 < h.number {
      assert s.tables.headers[h.number] in written;
    }
  }

  lemma NextKeepsSettled(written: seq<Header>, s: State, step: Step)
    requires Inv(s) && Settled(written, s) && OneHashPerNumber(written)
    requires Writes(s, step) ==> s.threads[step.thread].job.header in written
    ensures Next(s, step).tables.headers != map[] && Settled(written, Next(s, step))
  {
    var s' := Next(s, step);
    if Writes(s, step) {
      var h := s.threads[step.thread].job.header;
      assert ThreadOk(s.tables.headers, s.threads[step.thread]);
      forall i | 0 <= i < |s'.threads| && (s'.threads[i].Validated? || s'.threads[i].TipRead?)
        ensures ParentHeld(s'.tables, s'.threads[i].job.header)
      {
        assert s'.threads[i] == s.threads[i];
        WriteKeepsParents(written, s.tables, h, s.threads[i].job.header);
      }
    } else {
      forall i | 0 <= i < |s'.threads| && (s'.threads[i].Validated? || s'.threads[i].TipRead?)
        ensures ParentHeld(s'.tables, s'.threads[i].job.header)
      {
        if s'.threads[i] != s.threads[i] && s.threads[i].Started? {
          TryAddOutcome(s.tables, s.threads[i].job.header);
        }
      }
    }
  }

  lemma {:induction false} SettledRunNeverBreaks(written: seq<Header>, s: State, steps: seq<Step>)
    requires Inv(s) && Settled(written, s) && OneHashPerNumber(written)
    requires forall h | h in Written(s, steps) :: h in written
    ensures NeverBreaks(s, steps)
    decreases |steps|
  {
    if steps == [] {
    } else {
      var step, rest := steps[0], Written(Next(s, steps[0]), steps[1..]);
      if Writes(s, step) {
        assert s.threads[step.thread].job.header in Written(s, steps);
        SettledWriteDoesNotBreak(written, s, step);
      }
      NextKeepsInv(s, step);
      NextKeepsSettled(written, s, step);
      assert forall h | h in rest :: h in Written(s, steps);
      SettledRunNeverBreaks(written, Next(s, step), steps[1..]);
    }
  }

  /** If no two headers written in a run disagree on the hash of a number, the
      chain is linked in every state of it, under every interleaving. */
  lemma ConflictFreeThreadsStayLinked(n: nat, steps: seq<Step>)
    requires OneHashPerNumber(Written(Init(n), steps))
    ensures LinkedInEveryState(Init(n), steps)
  {
    InitHolds(n);
    SettledRunNeverBreaks(Written(Init(n), steps), Init(n), steps);
    LinkedInEveryStateIff(Init(n), steps);
  }

  // ----- A late write -----

  /** Thread `i` validates `h` on the tip and reads the tip. */
  function Early(i: nat, h: Header): seq<Step> {
    [Begin(i, h)] + [Advance(i), Advance(i)]
  }

  /** Thread `j` then adds `r`, all of it. */
  function Meanwhile(j: nat, r: Header): seq<Step> {
    [Begin(j, r)] + [Advance(j), Advance(j), Advance(j), Advance(j)]
  }

  lemma AfterEarly(s: State, i: nat, h: Header)
    requires WellFormed(s.tables.headers) && i < |s.threads| && s.threads[i].Idle? && BuildsOnTip(s.tables.headers, h)
    ensures Run(s, Early(i, h)) == s.(threads := s.threads[i := TipRead(Job(h, false), Last(s.tables.headers))])
  {
    RunOne(s, Begin(i, h));
    RunConcat(s, [Begin(i, h)], [Advance(i), Advance(i)]);
    var s1 := Next(s, Begin(i, h));
    TryAddOutcome(s1.tables, h);
    ValidateAndReadTip(s1, i);
    assert s.threads[i := s1.threads[i]][i := TipRead(Job(h, false), Last(s.tables.headers))]
        == s.threads[i := TipRead(Job(h, false), Last(s.tables.headers))];
  }

  /** The header competes with the tip, under another hash. */
  ghost predicate RivalsTip(hs: HeaderTable, r: Header)
    requires WellFormed(hs)
  {
    Rivals(hs, r) && r.hash != hs[Last(hs)].hash
  }

  lemma AfterMeanwhile(s: State, j: nat, r: Header)
    requires WellFormed(s.tables.headers) && j < |s.threads| && s.threads[j].Idle? && RivalsTip(s.tables.headers, r)
    ensures Run(s, Meanwhile(j, r)).tables == Insert(s.tables, r)
    ensures forall k | 0 <= k < |s.threads| && k != j :: Run(s, Meanwhile(j, r)).threads[k] == s.threads[k]
  {
    RunOne(s, Begin(j, r));
    RunConcat(s, [Begin(j, r)], [Advance(j), Advance(j), Advance(j), Advance(j)]);
    ReplacesTip(Next(s, Begin(j, r)), j);
  }

  lemma MeanwhileAfter(s: State, before: seq<Step>, j: nat, r: Header)
    requires s.tables.headers != map[]
    requires
      var s1 := Run(s, before);
      && WellFormed(s1.tables.headers) && j < |s1.threads| && s1.threads[j].Idle? && RivalsTip(s1.tables.headers, r)
    ensures
      var s1, s2 := Run(s, before), Run(s, before + Meanwhile(j, r));
      && s2.tables == Insert(s1.tables, r)
      && (forall k | 0 <= k < |s1.threads| && k != j :: s2.threads[k] == s1.threads[k])
  {
    AfterMeanwhile(Run(s, before), j, r);
    RunConcat(s, before, Meanwhile(j, r));
  }

  lemma LateWriteIs(s: State, i: nat, h: Header)
    requires s.tables.headers != map[] && i < |s.threads| && s.threads[i].TipRead? && s.threads[i].job.header == h
    ensures Writes(s, Advance(i)) && Next(s, Advance(i)).tables == Insert(s.tables, h)
    ensures !ParentHeld(s.tables, h) ==> Breaks(s, Advance(i))
  {
  }

  lemma LateWriteBreaks(t: Tables, h: Header, r: Header)
    requires WellFormed(t.headers) && Linked(t.headers) && BuildsOnTip(t.headers, h) && RivalsTip(t.headers, r)
    ensures
      var t' := Insert(t, r);
      && Linked(t'.headers) && !Undercuts(t, r) && !Undercuts(t', h) && !ParentHeld(t', h)
      && !Linked(Insert(t', h).headers)
  {
    var t' := Insert(t, r);
    WriteKeepsWellFormed(t, r);
    WriteKeepsLinkedIff(t, r);
    WriteKeepsLinkedIff(t', h);
  }

  /** The guard for adds one after another is not enough between threads. From any
      linked chain above genesis: a header is validated on the tip, another thread
      replaces that tip, and the header is written. Neither write undercuts, and
      yet the last one leaves the chain unlinked. */
  lemma LateWriteUnlinks(s: State, i: nat, j: nat, h: Header, r: Header)
    requires WellFormed(s.tables.headers) && Linked(s.tables.headers)
    requires i < |s.threads| && j < |s.threads| && i != j && s.threads[i].Idle? && s.threads[j].Idle?
    requires BuildsOnTip(s.tables.headers, h) && RivalsTip(s.tables.headers, r)
    ensures
      var s1 := Run(s, Early(i, h) + Meanwhile(j, r));
      && s1.tables == Insert(s.tables, r) && Linked(s1.tables.headers)
      && !Undercuts(s.tables, r) && !Undercuts(s1.tables, h)
      && Writes(s1, Advance(i)) && Breaks(s1, Advance(i))
      && Next(s1, Advance(i)).tables == Insert(s1.tables, h)
      && !Linked(Next(s1, Advance(i)).tables.headers)
  {
    AfterEarly(s, i, h);
    MeanwhileAfter(s, Early(i, h), j, r);
    LateWriteIs(Run(s, Early(i, h) + Meanwhile(j, r)), i, h);
    LateWriteBreaks(s.tables, h, r);
  }
}
