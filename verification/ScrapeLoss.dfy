/** The seen-set guard is not a completeness check: a run that lost up to half
    of its marks still passes it and then deletes live products. The change log
    (CHANGELOG.md:75-76) says such a cleanup is skipped. */
module ScrapeLoss {
  import opened Catalog
  import opened BatchUpsert
  import opened ScrapeStore
  import opened ScrapeMachine
  import opened ScrapeInvariants
  import opened ScrapeRefinement
  import opened ScrapeCleanup

  /** Exactly when no delivered product is lost, in any history: every delivered
      hash without a mark must have been rewritten by this very run. */
  lemma AllDeliveredSurviveIff(owner: string -> string, s: Sys, pid: nat)
    requires Inv(owner, s) && Enabled(s, Do(pid, DeleteStale))
    ensures var p := s.procs[pid];
            var left := VendorHashes(Step(ChangedOnly, s, Do(pid, DeleteStale)).db.products, p.vendor);
            && (p.delivered <= left <==>
                  p.delivered - SeenBy(s.db.seen, p.run) <= Fresh(s.db.products, p.vendor, p.start))
            && (|SeenBy(s.db.seen, p.run)| == |p.delivered| ==> p.delivered <= left)
  {
    var p := s.procs[pid];
    var marked := SeenBy(s.db.seen, p.run);
    assert Sent(p.calls) == {};
    forall h | h in p.delivered
      ensures h in VendorHashes(Step(ChangedOnly, s, Do(pid, DeleteStale)).db.products, p.vendor)
         <==> h in Fresh(s.db.products, p.vendor, p.start) || h in marked
    {
      CleanupLeavesIff(owner, s, pid, h);
    }
    assert marked <= p.delivered;
    if |marked| == |p.delivered| {
      EqualSize(marked, p.delivered);
    }
  }

  lemma EqualSize<T>(a: set<T>, b: set<T>)
    requires a <= b && |a| == |b|
    ensures a == b
  {
    if b - a == {} {
      assert a == b;
    } else {
      var x :| x in b - a;
      SubsetSize(a, b - {x});
    }
  }

  /** The run: `live` is stored and unchanged upstream; its batch is delivered,
      upserted (a no-op) and marked. */
  function FirstBatch(live: Product): seq<Event> {
    [Acquire(0, live.vendor), Do(0, ReadClock), Do(0, StartRun),
     Do(0, Deliver("first", [live])), Do(0, UpsertChunk("first")), Do(0, MarkBatch("first"))]
  }

  /** The marks are truncated, a second batch goes through, the guards pass. */
  function LossAndSecondBatch(live: Product, late: Product): seq<Event> {
    [LoseSeen({(1, live.hash)}),
     Do(0, Deliver("second", [late])), Do(0, UpsertChunk("second")), Do(0, MarkBatch("second")),
     Do(0, ScrapeReturns), Do(0, ReadPrevious(None)), Do(0, CountSeen)]
  }

  function AfterFirst(live: Product, clock: int): Sys {
    Sys(Database(map[live.hash := Row(live, clock)], map[1 := Run(live.vendor, clock + 1, None, Running, 0, 0)],
                 {(1, live.hash)}, map[live.vendor := 0], 2, clock + 3),
        map[0 := NewProc(live.vendor).(phase := Scraping, start := clock + 1, run := 1, ingested := 1,
                                       delivered := {live.hash})])
  }

  function BeforeDelete(live: Product, late: Product, clock: int): Sys {
    Sys(Database(map[live.hash := Row(live, clock), late.hash := Row(late, clock + 4)],
                 map[1 := Run(live.vendor, clock + 1, None, Running, 0, 0)],
                 {(1, late.hash)}, map[live.vendor := 0], 2, clock + 4),
        map[0 := NewProc(live.vendor).(phase := Deleting, start := clock + 1, run := 1, ingested := 2, counted := 1,
                                       delivered := {live.hash, late.hash})])
  }

  /** One step in front of a history whose outcome is known. */
  lemma Prepend(s: Sys, e: Event, s': Sys, rest: seq<Event>, end: Sys)
    requires Enabled(s, e) && Step(ChangedOnly, s, e) == s'
    requires IsHistory(ChangedOnly, s', rest) && After(ChangedOnly, s', rest) == end
    ensures IsHistory(ChangedOnly, s, [e] + rest) && After(ChangedOnly, s, [e] + rest) == end
  {
    assert ([e] + rest)[1..] == rest;
  }

  lemma DeliverOne(s: Sys, call: string, p: Product)
    requires 0 in s.procs && s.procs[0].phase.Scraping? && s.procs[0].calls == map[]
    ensures Enabled(s, Do(0, Deliver(call, [p])))
    ensures Step(ChangedOnly, s, Do(0, Deliver(call, [p]))) ==
            Sys(s.db, s.procs[0 := s.procs[0].(calls := map[call := Call([p], 0)],
                                               delivered := s.procs[0].delivered + {p.hash})])
  {
    assert Hashes([p]) == {p.hash};
  }

  lemma UpsertOne(s: Sys, call: string, p: Product, row: Row)
    requires 0 in s.procs && s.procs[0].phase.Scraping? && s.procs[0].calls == map[call := Call([p], 0)]
    requires row == Written(ChangedOnly, s.db.products, p, s.db.clock + 1)
    ensures Enabled(s, Do(0, UpsertChunk(call)))
    ensures Step(ChangedOnly, s, Do(0, UpsertChunk(call))) ==
            Sys(s.db.(products := s.db.products[p.hash := row], clock := s.db.clock + 1),
                s.procs[0 := s.procs[0].(calls := map[call := Call([p], 1)])])
  {
    assert NextWrite(Call([p], 0)) == [p];
    assert Hashes([p]) == {p.hash};
    assert UpsertStatement(ChangedOnly, s.db.products, [p], s.db.clock + 1) == s.db.products[p.hash := row];
    assert s.procs[0].calls[call := Call([p], 1)] == map[call := Call([p], 1)];
  }

  lemma MarkOne(s: Sys, call: string, p: Product)
    requires 0 in s.procs && s.procs[0].phase.Scraping? && s.procs[0].calls == map[call := Call([p], 1)]
    requires s.procs[0].run > 0
    ensures Enabled(s, Do(0, MarkBatch(call)))
    ensures Step(ChangedOnly, s, Do(0, MarkBatch(call))) ==
            Sys(s.db.(seen := s.db.seen + {(s.procs[0].run, p.hash)}),
                s.procs[0 := s.procs[0].(calls := map[], ingested := s.procs[0].ingested + 1)])
  {
    assert (set x | x in [p] :: (s.procs[0].run, x.hash)) == {(s.procs[0].run, p.hash)};
    assert s.procs[0].calls - {call} == map[];
  }

  function Handling(s: Sys, call: string, p: Product, written: nat): Proc
    requires 0 in s.procs
  {
    s.procs[0].(calls := map[call := Call([p], written)], delivered := s.procs[0].delivered + {p.hash})
  }

  function Stored(s: Sys, p: Product, row: Row): Database {
    s.db.(products := s.db.products[p.hash := row], clock := s.db.clock + 1)
  }

  lemma DeliverAndUpsert(s: Sys, call: string, p: Product, row: Row)
    requires 0 in s.procs && s.procs[0].phase.Scraping? && s.procs[0].calls == map[]
    requires row == Written(ChangedOnly, s.db.products, p, s.db.clock + 1)
    ensures var s1 := Sys(s.db, s.procs[0 := Handling(s, call, p, 0)]);
            && Enabled(s, Do(0, Deliver(call, [p]))) && Step(ChangedOnly, s, Do(0, Deliver(call, [p]))) == s1
            && Enabled(s1, Do(0, UpsertChunk(call)))
            && Step(ChangedOnly, s1, Do(0, UpsertChunk(call)))
               == Sys(Stored(s, p, row), s.procs[0 := Handling(s, call, p, 1)])
  {
    var s1 := Sys(s.db, s.procs[0 := Handling(s, call, p, 0)]);
    DeliverOne(s, call, p);
    UpsertOne(s1, call, p, row);
    assert s1.procs[0 := Handling(s, call, p, 1)] == s.procs[0 := Handling(s, call, p, 1)];
  }

  /** One batch of one product through the handler. */
  lemma BatchGoesThrough(s: Sys, call: string, p: Product, row: Row)
    requires 0 in s.procs && s.procs[0].phase.Scraping? && s.procs[0].calls == map[] && s.procs[0].run > 0
    requires row == Written(ChangedOnly, s.db.products, p, s.db.clock + 1)
    ensures var events := [Do(0, Deliver(call, [p])), Do(0, UpsertChunk(call)), Do(0, MarkBatch(call))];
            var q := s.procs[0];
            && IsHistory(ChangedOnly, s, events)
            && After(ChangedOnly, s, events) ==
               Sys(Stored(s, p, row).(seen := s.db.seen + {(q.run, p.hash)}),
                   s.procs[0 := q.(ingested := q.ingested + 1, delivered := q.delivered + {p.hash})])
  {
    var q := s.procs[0];
    var s1 := Sys(s.db, s.procs[0 := Handling(s, call, p, 0)]);
    var s2 := Sys(Stored(s, p, row), s.procs[0 := Handling(s, call, p, 1)]);
    var q3 := q.(ingested := q.ingested + 1, delivered := q.delivered + {p.hash});
    var s3 := Sys(s2.db.(seen := s.db.seen + {(q.run, p.hash)}), s.procs[0 := q3]);
    DeliverAndUpsert(s, call, p, row);
    MarkOne(s2, call, p);
    assert s2.procs[0 := q3] == s3.procs;
    ThreeSteps(s, Do(0, Deliver(call, [p])), s1, Do(0, UpsertChunk(call)), s2, Do(0, MarkBatch(call)), s3);
  }

  lemma ThreeSteps(s: Sys, e1: Event, s1: Sys, e2: Event, s2: Sys, e3: Event, s3: Sys)
    requires Enabled(s, e1) && Step(ChangedOnly, s, e1) == s1
    requires Enabled(s1, e2) && Step(ChangedOnly, s1, e2) == s2
    requires Enabled(s2, e3) && Step(ChangedOnly, s2, e3) == s3
    ensures IsHistory(ChangedOnly, s, [e1, e2, e3]) && After(ChangedOnly, s, [e1, e2, e3]) == s3
  {
    Prepend(s2, e3, s3, [], s3);
    Prepend(s1, e2, s2, [e3], s3);
    assert [e2] + [e3] == [e2, e3];
    Prepend(s, e1, s1, [e2, e3], s3);
  }

  function Started(live: Product, clock: int): Sys {
    Sys(Database(map[live.hash := Row(live, clock)], map[1 := Run(live.vendor, clock + 1, None, Running, 0, 0)],
                 {}, map[live.vendor := 0], 2, clock + 2),
        map[0 := NewProc(live.vendor).(phase := Scraping, start := clock + 1, run := 1)])
  }

  lemma StartsUp(live: Product, clock: int)
    ensures var events := [Acquire(0, live.vendor), Do(0, ReadClock), Do(0, StartRun)];
            var boot := Boot(map[live.hash := Row(live, clock)], clock);
            IsHistory(ChangedOnly, boot, events) && After(ChangedOnly, boot, events) == Started(live, clock)
  {
    var boot := Boot(map[live.hash := Row(live, clock)], clock);
    var s1 := Sys(boot.db.(locks := map[live.vendor := 0]), map[0 := NewProc(live.vendor)]);
    var s2 := Sys(s1.db.(clock := clock + 1), map[0 := NewProc(live.vendor).(phase := Clocked, start := clock + 1)]);
    var s3 := Started(live, clock);
    ThreeSteps(boot, Acquire(0, live.vendor), s1, Do(0, ReadClock), s2, Do(0, StartRun), s3);
  }

  lemma FirstBatchLands(live: Product, clock: int)
    ensures var batch := [Do(0, Deliver("first", [live])), Do(0, UpsertChunk("first")), Do(0, MarkBatch("first"))];
            IsHistory(ChangedOnly, Started(live, clock), batch)
            && After(ChangedOnly, Started(live, clock), batch) == AfterFirst(live, clock)
  {
    var s := Started(live, clock);
    BatchGoesThrough(s, "first", live, Row(live, clock));
    assert s.procs[0].delivered + {live.hash} == {live.hash};
    assert s.procs[0 := AfterFirst(live, clock).procs[0]] == AfterFirst(live, clock).procs;
    assert s.db.products[live.hash := Row(live, clock)] == s.db.products;
    assert s.db.seen + {(1, live.hash)} == {(1, live.hash)};
  }

  lemma FirstBatchRuns(live: Product, clock: int)
    ensures var boot := Boot(map[live.hash := Row(live, clock)], clock);
            IsHistory(ChangedOnly, boot, FirstBatch(live))
                && After(ChangedOnly, boot, FirstBatch(live)) == AfterFirst(live, clock)
  {
    var boot := Boot(map[live.hash := Row(live, clock)], clock);
    var up := [Acquire(0, live.vendor), Do(0, ReadClock), Do(0, StartRun)];
    var batch := [Do(0, Deliver("first", [live])), Do(0, UpsertChunk("first")), Do(0, MarkBatch("first"))];
    StartsUp(live, clock);
    FirstBatchLands(live, clock);
    HistoryChains(ChangedOnly, boot, up, batch);
    assert up + batch == FirstBatch(live);
  }

  lemma GuardsPass(s: Sys)
    requires 0 in s.procs && s.procs[0].phase.Scraping? && s.procs[0].calls == map[]
    requires Clean(s.procs[0]) && s.procs[0].ingested == 2 && |SeenBy(s.db.seen, s.procs[0].run)| == 1
    ensures var events := [Do(0, ScrapeReturns), Do(0, ReadPrevious(None)), Do(0, CountSeen)];
            && IsHistory(ChangedOnly, s, events)
            && After(ChangedOnly, s, events) ==
               Sys(s.db, s.procs[0 := s.procs[0].(phase := Deleting, previous := 0, counted := 1)])
  {
    var p := s.procs[0];
    var s1 := Sys(s.db, s.procs[0 := p.(phase := Judging)]);
    var s2 := Sys(s.db, s.procs[0 := p.(phase := Counting, previous := 0)]);
    var s3 := Sys(s.db, s.procs[0 := p.(phase := Deleting, previous := 0, counted := 1)]);
    assert Step(ChangedOnly, s1, Do(0, ReadPrevious(None))) == s2 by {
      assert s1.procs[0 := s2.procs[0]] == s2.procs;
    }
    assert Step(ChangedOnly, s2, Do(0, CountSeen)) == s3 by {
      assert s2.procs[0 := s3.procs[0]] == s3.procs;
    }
    ThreeSteps(s, Do(0, ScrapeReturns), s1, Do(0, ReadPrevious(None)), s2, Do(0, CountSeen), s3);
  }

  lemma SecondBatchRuns(live: Product, late: Product, clock: int)
    requires late.hash != live.hash
    ensures IsHistory(ChangedOnly, AfterFirst(live, clock), LossAndSecondBatch(live, late))
    ensures After(ChangedOnly, AfterFirst(live, clock), LossAndSecondBatch(live, late))
         == BeforeDelete(live, late, clock)
  {
    var s := AfterFirst(live, clock);
    var lossy := s.(db := s.db.(seen := {}));
    var rest := [Do(0, Deliver("second", [late])), Do(0, UpsertChunk("second")), Do(0, MarkBatch("second"))]
              + [Do(0, ScrapeReturns), Do(0, ReadPrevious(None)), Do(0, CountSeen)];
    LossyBatchPassesGuards(live, late, clock);
    assert s.db.seen - {(1, live.hash)} == {};
    Prepend(s, LoseSeen({(1, live.hash)}), lossy, rest, BeforeDelete(live, late, clock));
    assert [LoseSeen({(1, live.hash)})] + rest == LossAndSecondBatch(live, late);
  }

  lemma LossyBatchPassesGuards(live: Product, late: Product, clock: int)
    requires late.hash != live.hash
    ensures var lossy := AfterFirst(live, clock).(db := AfterFirst(live, clock).db.(seen := {}));
            var batch := [Do(0, Deliver("second", [late])), Do(0, UpsertChunk("second")), Do(0, MarkBatch("second"))];
            var ending := [Do(0, ScrapeReturns), Do(0, ReadPrevious(None)), Do(0, CountSeen)];
            && IsHistory(ChangedOnly, lossy, batch + ending)
            && After(ChangedOnly, lossy, batch + ending) == BeforeDelete(live, late, clock)
  {
    var lossy := AfterFirst(live, clock).(db := AfterFirst(live, clock).db.(seen := {}));
    var batch := [Do(0, Deliver("second", [late])), Do(0, UpsertChunk("second")), Do(0, MarkBatch("second"))];
    var ending := [Do(0, ScrapeReturns), Do(0, ReadPrevious(None)), Do(0, CountSeen)];
    LossyBatch(live, late, clock);
    var done := After(ChangedOnly, lossy, batch);
    GuardsPass(done);
    HistoryChains(ChangedOnly, lossy, batch, ending);
    assert done.procs[0 := BeforeDelete(live, late, clock).procs[0]] == BeforeDelete(live, late, clock).procs;
  }

  lemma LossyBatch(live: Product, late: Product, clock: int)
    requires late.hash != live.hash
    ensures var lossy := AfterFirst(live, clock).(db := AfterFirst(live, clock).db.(seen := {}));
            var batch := [Do(0, Deliver("second", [late])), Do(0, UpsertChunk("second")), Do(0, MarkBatch("second"))];
            && IsHistory(ChangedOnly, lossy, batch)
            && After(ChangedOnly, lossy, batch) ==
               BeforeDelete(live, late, clock).(procs := map[0 := BeforeDelete(live, late, clock).procs[0].(
                  phase := Scraping, counted := 0)])
            && |SeenBy({(1 as nat, late.hash)}, 1)| == 1
  {
    var lossy := AfterFirst(live, clock).(db := AfterFirst(live, clock).db.(seen := {}));
    var batch := [Do(0, Deliver("second", [late])), Do(0, UpsertChunk("second")), Do(0, MarkBatch("second"))];
    BatchGoesThrough(lossy, "second", late, Row(late, clock + 4));
    var end := After(ChangedOnly, lossy, batch);
    assert end.procs[0].delivered == {live.hash, late.hash};
    assert end.procs == map[0 := end.procs[0]];
    assert end.db.products == BeforeDelete(live, late, clock).db.products;
    MarkedIff({(1, late.hash)}, 1, late.hash);
    assert SeenBy({(1 as nat, late.hash)}, 1) == {late.hash};
  }

  /** For any two products of a vendor, one of them stored: there is a run whose
      marks were truncated half-way, that passes every guard, and whose cleanup
      deletes a product the run had delivered. */
  lemma HalfLostMarksDeleteLiveProducts(live: Product, late: Product, clock: int)
    requires late.vendor == live.vendor && late.hash != live.hash
    ensures var boot := Boot(map[live.hash := Row(live, clock)], clock);
            var events := FirstBatch(live) + LossAndSecondBatch(live, late);
            && IsHistory(ChangedOnly, boot, events)
            && Enabled(After(ChangedOnly, boot, events), Do(0, DeleteStale))
            && live.hash in After(ChangedOnly, boot, events).procs[0].delivered
            && live.hash !in Step(ChangedOnly, After(ChangedOnly, boot, events), Do(0, DeleteStale)).db.products
  {
    var boot := Boot(map[live.hash := Row(live, clock)], clock);
    FirstBatchRuns(live, clock);
    SecondBatchRuns(live, late, clock);
    HistoryChains(ChangedOnly, boot, FirstBatch(live), LossAndSecondBatch(live, late));
    var s := BeforeDelete(live, late, clock);
    assert live.hash in StaleHashes(ChangedOnly, s.db, live.vendor, 1, clock + 1);
  }
}
