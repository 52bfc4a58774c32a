/** What every step of the scrape protocol keeps. `owner` maps a product hash to
    its vendor: product hashes cover the vendor name (internal/scraper/hash.go),
    so vendors never share one. */
module ScrapeInvariants {
  import opened Catalog
  import opened BatchUpsert
  import opened ScrapeStore
  import opened ScrapeMachine

  // ---------------------------------------------------------------- vocabulary

  predicate Working(phase: Phase) {
    phase.Scraping? || phase.Judging? || phase.Counting? || phase.Deleting?
  }

  predicate HasRun(phase: Phase) {
    Working(phase) || phase.Finishing? || phase.Clearing?
  }

  /** No failed service, no failed handler: the cleanup is still possible. */
  predicate Clean(p: Proc) {
    p.failed == 0 && !p.errored
  }

  /** Hashes of the vendor whose rows were written at or after `start`. */
  function Fresh(products: Table, vendor: string, start: int): set<string> {
    set h | h in products && products[h].product.vendor == vendor && products[h].updatedAt >= start
  }

  /** Hashes in open calls, and those of them already upserted. */
  function Sent(calls: map<string, Call>): set<string> {
    set c, p | c in calls && p in calls[c].products :: p.hash
  }

  function WrittenBy(calls: map<string, Call>): set<string> {
    set c, p | c in calls && calls[c].written <= |calls[c].products|
               && p in calls[c].products[..calls[c].written] :: p.hash
  }

  ghost predicate Owned(owner: string -> string, vendor: string, products: seq<Product>) {
    forall p :: p in products ==> p.vendor == vendor && owner(p.hash) == vendor
  }

  // ---------------------------------------------------------------- invariants

  ghost predicate TableOk(owner: string -> string, products: Table, clock: int) {
    forall h :: h in products ==>
      && products[h].product.hash == h
      && products[h].product.vendor == owner(h)
      && products[h].updatedAt <= clock
  }

  /** In particular a success row always has products (the vendor status page
      relies on it). */
  ghost predicate RunsOk(db: Database) {
    && db.nextRun > 0
    && (forall r :: r in db.runs ==>
          && 0 < r < db.nextRun
          && (db.runs[r].status.Running? <==> db.runs[r].finishedAt.None?)
          && (db.runs[r].status.Success? ==> db.runs[r].products > 0))
    && (forall e :: e in db.seen ==> e.0 < db.nextRun)
  }

  /** Holds of a process in every history. */
  ghost predicate ProcOk(owner: string -> string, db: Database, pid: nat, p: Proc) {
    && p.vendor in db.locks && db.locks[p.vendor] == pid
    && (p.phase.Clocked? || Working(p.phase) ==> p.start <= db.clock)
    && (HasRun(p.phase) ==> 0 < p.run < db.nextRun)
    && (!p.phase.Scraping? ==> p.calls == map[])
    && (forall c :: c in p.calls ==>
          p.calls[c].written <= |p.calls[c].products| && Owned(owner, p.vendor, p.calls[c].products))
    && (Working(p.phase) ==>
          && SeenBy(db.seen, p.run) + WrittenBy(p.calls) <= VendorHashes(db.products, p.vendor)
          && SeenBy(db.seen, p.run) + Sent(p.calls) <= p.delivered
          && (Clean(p) ==> p.delivered <= VendorHashes(db.products, p.vendor) + Sent(p.calls)))
    && (p.phase.Locked? || p.phase.Clocked? ==>
          p.ingested == 0 && Clean(p) && p.delivered == {})
    && (p.phase.Judging? ==> !p.errored)
    && (p.phase.Counting? || p.phase.Deleting? ==>
          Clean(p) && p.ingested > 0 && (p.previous > 0 ==> p.ingested >= p.previous / 2))
    && (p.phase.Deleting? ==> SeenSetComplete(p.counted, p.ingested))
    && (p.phase.Finishing? ==> !p.outcome.Running? && (p.outcome.Success? ==> p.recorded > 0))
  }

  /** Holds of a process as long as nothing takes marks away from a live run. */
  ghost predicate Synced(design: Design, db: Database, p: Proc) {
    && (p.phase.Clocked? ==> Fresh(db.products, p.vendor, p.start) == {})
    && (Working(p.phase) ==>
          var marked, written := SeenBy(db.seen, p.run), WrittenBy(p.calls);
          && IsRunning(db, p.run)
          && (design.TouchAll? ==> marked + written <= Fresh(db.products, p.vendor, p.start))
          && (Clean(p) ==> Fresh(db.products, p.vendor, p.start) <= marked + written)
          && (Clean(p) ==> p.delivered <= marked + Sent(p.calls)))
  }

  ghost predicate RunsDiffer(procs: map<nat, Proc>) {
    forall i, j :: i in procs && j in procs && i != j && HasRun(procs[i].phase) && HasRun(procs[j].phase)
      ==> procs[i].run != procs[j].run
  }

  ghost predicate LocksOk(s: Sys) {
    forall v :: v in s.db.locks ==> s.db.locks[v] in s.procs && s.procs[s.db.locks[v]].vendor == v
  }

  ghost predicate Inv(owner: string -> string, s: Sys) {
    && TableOk(owner, s.db.products, s.db.clock)
    && RunsOk(s.db)
    && RunsDiffer(s.procs)
    && LocksOk(s)
    && forall pid :: pid in s.procs ==> ProcOk(owner, s.db, pid, s.procs[pid])
  }

  ghost predicate AllSynced(design: Design, s: Sys) {
    forall pid :: pid in s.procs ==> Synced(design, s.db, s.procs[pid])
  }

  // ---------------------------------------------------------------- which events are covered

  /** Scrapers emit their own vendor's products under that vendor's hashes. */
  ghost predicate WellFormed(owner: string -> string, s: Sys, e: Event) {
    match e
    case Do(pid, Deliver(_, products)) => pid in s.procs ==> Owned(owner, s.procs[pid].vendor, products)
    case Seed(batch) => forall p :: p in batch ==> p.vendor == owner(p.hash)
    case _ => true
  }

  /** The hypotheses under which marks are reliable: no live run is reaped, no
      mark of a live run is lost, and nobody seeds products of a vendor between
      its run's start and the end of its cleanup. Each is a fact about the event
      and the state just before it. */
  ghost predicate Orderly(s: Sys, e: Event) {
    match e
    case Reap(cutoff) =>
      forall pid :: pid in s.procs && Working(s.procs[pid].phase) && s.procs[pid].run in s.db.runs ==>
        !Reapable(s.db.runs[s.procs[pid].run], cutoff)
    case LoseSeen(lost) =>
      forall pid, h :: pid in s.procs && Working(s.procs[pid].phase) ==> (s.procs[pid].run, h) !in lost
    case Seed(batch) =>
      forall pid, p :: pid in s.procs && p in batch && (s.procs[pid].phase.Clocked? || Working(s.procs[pid].phase))
        ==> p.vendor != s.procs[pid].vendor
    case _ => true
  }

  // ---------------------------------------------------------------- set algebra of one statement

  /** One row before and after an upsert. */
  lemma RowAfterUpsert(owner: string -> string, design: Design, db: Database, batch: seq<Product>, h: string)
    requires TableOk(owner, db.products, db.clock)
    requires forall p :: p in batch ==> p.vendor == owner(p.hash)
    ensures var was, now := db.products, UpsertBatchRows(design, db, batch).products;
            && (h in now <==> h in was || h in Hashes(batch))
            && (h in now ==>
                  && now[h].product.hash == h
                  && now[h].product.vendor == owner(h)
                  && now[h].updatedAt <= db.clock + 1)
            && (h in was ==> now[h] == was[h] || now[h].updatedAt == db.clock + 1)
            && (h in was && h !in Hashes(batch) ==> now[h] == was[h])
            && (h in Hashes(batch) && (design.TouchAll? || h !in was) ==> now[h].updatedAt == db.clock + 1)
  {
    if h in Hashes(batch) {
      var sent := FirstOf(batch, h);
      assert UpsertBatchRows(design, db, batch).products[h] == Written(design, db.products, sent, db.clock + 1);
    }
  }

  lemma UpsertKeepsTable(owner: string -> string, design: Design, db: Database, batch: seq<Product>)
    requires TableOk(owner, db.products, db.clock)
    requires forall p :: p in batch ==> p.vendor == owner(p.hash)
    ensures var db' := UpsertBatchRows(design, db, batch); TableOk(owner, db'.products, db'.clock)
  {
    var db' := UpsertBatchRows(design, db, batch);
    forall h | h in db'.products
      ensures db'.products[h].product.hash == h && db'.products[h].product.vendor == owner(h)
      ensures db'.products[h].updatedAt <= db'.clock
    {
      RowAfterUpsert(owner, design, db, batch, h);
    }
  }

  /** The upserting vendor: its hashes grow by the batch; its fresh hashes grow by
      at most the batch, and by all of it in the touch-every-row design. */
  lemma UpsertOwnVendor(owner: string -> string, design: Design, db: Database, batch: seq<Product>, vendor: string,
                        start: int)
    requires TableOk(owner, db.products, db.clock)
    requires Owned(owner, vendor, batch) && start <= db.clock
    ensures var was, now := db.products, UpsertBatchRows(design, db, batch).products;
            && VendorHashes(now, vendor) == VendorHashes(was, vendor) + Hashes(batch)
            && Fresh(was, vendor, start) <= Fresh(now, vendor, start) <= Fresh(was, vendor, start) + Hashes(batch)
            && (design.TouchAll? ==> Hashes(batch) <= Fresh(now, vendor, start))
  {
    var was, now := db.products, UpsertBatchRows(design, db, batch).products;
    forall h | h in now || h in was
      ensures h in VendorHashes(now, vendor) <==> h in VendorHashes(was, vendor) || h in Hashes(batch)
      ensures h in Fresh(was, vendor, start) ==> h in Fresh(now, vendor, start)
      ensures h in Fresh(now, vendor, start) ==> h in Fresh(was, vendor, start) + Hashes(batch)
      ensures design.TouchAll? && h in Hashes(batch) ==> h in Fresh(now, vendor, start)
    {
      RowAfterUpsert(owner, design, db, batch, h);
    }
    forall h | h in Hashes(batch) ensures h in now {
      RowAfterUpsert(owner, design, db, batch, h);
    }
  }

  lemma UpsertVendorHashes(owner: string -> string, design: Design, db: Database, batch: seq<Product>, vendor: string)
    requires TableOk(owner, db.products, db.clock)
    requires forall p :: p in batch ==> p.vendor == owner(p.hash)
    ensures var was, now := db.products, UpsertBatchRows(design, db, batch).products;
            VendorHashes(was, vendor) <= VendorHashes(now, vendor)
  {
    forall h | h in VendorHashes(db.products, vendor)
      ensures h in VendorHashes(UpsertBatchRows(design, db, batch).products, vendor)
    {
      RowAfterUpsert(owner, design, db, batch, h);
    }
  }

  lemma UpsertOtherVendor(owner: string -> string, design: Design, db: Database, batch: seq<Product>, vendor: string)
    requires TableOk(owner, db.products, db.clock)
    requires forall p :: p in batch ==> p.vendor == owner(p.hash) && p.vendor != vendor
    ensures var was, now := db.products, UpsertBatchRows(design, db, batch).products;
            VendorRows(now, vendor) == VendorRows(was, vendor)
  {
    var was, now := db.products, UpsertBatchRows(design, db, batch).products;
    forall h | h in now
      ensures h in VendorRows(now, vendor) <==> h in VendorRows(was, vendor)
      ensures h in VendorRows(now, vendor) ==> VendorRows(now, vendor)[h] == VendorRows(was, vendor)[h]
    {
      RowAfterUpsert(owner, design, db, batch, h);
    }
    forall h | h in was ensures h in now {
      RowAfterUpsert(owner, design, db, batch, h);
    }
  }

  lemma CallWrites(calls: map<string, Call>, call: string)
    requires call in calls && calls[call].written <= |calls[call].products|
    ensures var c := calls[call];
            var calls' := calls[call := c.(written := c.written + |NextWrite(c)|)];
            && WrittenBy(calls') == WrittenBy(calls) + Hashes(NextWrite(c))
            && Sent(calls') == Sent(calls)
  {
    var c := calls[call];
    var n := NextWrite(c);
    var calls' := calls[call := c.(written := c.written + |n|)];
    assert c.products[..c.written + |n|] == c.products[..c.written] + n;
    assert forall p :: p in c.products[..c.written + |n|] <==> p in c.products[..c.written] || p in n;
    forall h | h in WrittenBy(calls) + Hashes(n) ensures h in WrittenBy(calls') {
      if h in Hashes(n) {
        var p :| p in n && p.hash == h;
        assert p in calls'[call].products[..calls'[call].written];
      } else {
        var k, p :| k in calls && calls[k].written <= |calls[k].products|
                    && p in calls[k].products[..calls[k].written] && p.hash == h;
        assert p in calls'[k].products[..calls'[k].written];
      }
    }
    forall h | h in WrittenBy(calls') ensures h in WrittenBy(calls) + Hashes(n) {
      var k, p :| k in calls' && calls'[k].written <= |calls'[k].products|
                  && p in calls'[k].products[..calls'[k].written] && p.hash == h;
      assert k != call ==> p in calls[k].products[..calls[k].written];
    }
    assert forall k :: k in calls ==> calls'[k].products == calls[k].products;
  }

  lemma CallOpens(calls: map<string, Call>, call: string, products: seq<Product>)
    requires call !in calls
    ensures var calls' := calls[call := Call(products, 0)];
            && WrittenBy(calls') == WrittenBy(calls)
            && Sent(calls') == Sent(calls) + Hashes(products)
  {
    var calls' := calls[call := Call(products, 0)];
    assert calls'[call].products == products;
    forall h | h in Sent(calls) + Hashes(products) ensures h in Sent(calls') {
      if h in Hashes(products) {
        var p :| p in products && p.hash == h;
        assert p in calls'[call].products;
      } else {
        var k, p :| k in calls && p in calls[k].products && p.hash == h;
        assert p in calls'[k].products;
      }
    }
    assert forall k :: k in calls ==> calls'[k] == calls[k];
  }

  lemma CallCloses(calls: map<string, Call>, call: string)
    requires call in calls
    ensures var calls' := calls - {call};
            && WrittenBy(calls') <= WrittenBy(calls) <= WrittenBy(calls') + Hashes(calls[call].products)
            && Sent(calls') <= Sent(calls) == Sent(calls') + Hashes(calls[call].products)
            && (calls[call].written == |calls[call].products| ==> Hashes(calls[call].products) <= WrittenBy(calls))
  {
    var calls' := calls - {call};
    var c := calls[call];
    assert forall k :: k in calls' <==> k in calls && k != call;
    assert forall k :: k in calls' ==> calls'[k] == calls[k];
    forall h | h in WrittenBy(calls) ensures h in WrittenBy(calls') + Hashes(c.products) {
      var k, p :| k in calls && calls[k].written <= |calls[k].products|
                  && p in calls[k].products[..calls[k].written] && p.hash == h;
      if k == call { assert p in c.products; } else { assert p in calls'[k].products[..calls'[k].written]; }
    }
    if c.written == |c.products| {
      assert c.products[..c.written] == c.products;
    }
  }

  lemma MarkGrows(db: Database, run: nat, products: seq<Product>, other: nat)
    requires run > 0
    ensures var db' := MarkSeen(db, run, products);
            && SeenBy(db'.seen, run) == SeenBy(db.seen, run) + Hashes(products)
            && (other != run ==> SeenBy(db'.seen, other) == SeenBy(db.seen, other))
  {
    var db' := MarkSeen(db, run, products);
    if |products| > 0 {
      forall h | h in Hashes(products) ensures (run, h) in db'.seen {
      }
      forall h | h in SeenBy(db'.seen, run) ensures h in SeenBy(db.seen, run) + Hashes(products) {
        assert (run, h) in db'.seen;
      }
      forall h | h in SeenBy(db'.seen, other) && other != run ensures (other, h) in db.seen {
        assert (other, h) in db'.seen;
      }
      assert forall e :: e in db.seen ==> e in db'.seen;
    }
  }
}
