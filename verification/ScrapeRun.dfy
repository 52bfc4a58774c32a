/** runOneScrape itself (cmd/server/main.go), statement by statement. Each run of
    the code is a history of the protocol machine, so what holds of every
    history holds of the code. */
module ScrapeRun {
  import opened Catalog
  import opened BatchUpsert
  import opened ScrapeStore
  import opened ScrapeMachine
  import opened ScrapeInvariants
  import opened ScrapeSafety
  import opened ScrapeCleanup

  /** What the outside world does to one run: the scraper's moves in order, and
      which database calls fail. Upsert statement number `failAt` of a batch
      fails if it is reached. */
  datatype Move =
    | Batch(products: seq<Product>, failAt: nat, markOk: bool, swallowed: bool)
    | ServiceDown
    | Breakdown

  datatype World = World(
    lockOk: bool,
    clockOk: bool,
    startOk: bool,
    moves: seq<Move>,
    previousOk: bool,
    countOk: bool,
    deleteOk: bool,
    finishOk: bool,
    retain: int,
    appClock: int,
    pruneOk: bool,
    clearOk: bool)

  /** The history so far of one vendor's run, with its first and its current
      state; `owner` says whose each hash is. */
  datatype Trace = Trace(owner: string -> string, vendor: string, start: Sys, events: seq<Event>, now: Sys)

  ghost predicate Traced(t: Trace) {
    && IsHistory(ChangedOnly, t.start, t.events) && After(ChangedOnly, t.start, t.events) == t.now
    && Inv(t.owner, t.now) && AllSynced(ChangedOnly, t.now)
    && SparesOthers(t.vendor, t.start.db, t.now.db)
  }

  /** No row of any other vendor has changed. */
  ghost predicate SparesOthers(vendor: string, db: Database, db': Database) {
    forall v :: v != vendor ==> VendorRows(db'.products, v) == VendorRows(db.products, v)
  }

  ghost predicate SameRunsAndLocks(db: Database, db': Database) {
    db'.runs == db.runs && db'.locks == db.locks && db'.nextRun == db.nextRun
  }

  /** Nothing but new rows, changed rows and marks. */
  ghost predicate OnlyAdds(db: Database, db': Database) {
    db.products.Keys <= db'.products.Keys && db.clock <= db'.clock && SameRunsAndLocks(db, db')
  }

  /** Same beginning, same ownership. */
  ghost predicate Continues(t: Trace, t': Trace) {
    t'.start == t.start && t'.owner == t.owner && t'.vendor == t.vendor
  }

  /** The process `p` of `session` stands at the end of the trace, over the
      store's tables, among processes that are not moving. */
  ghost predicate At(t: Trace, db: Database, others: map<nat, Proc>, session: nat, p: Proc) {
    Traced(t) && t.now == Sys(db, others[session := p]) && p.vendor == t.vendor
  }

  lemma Begun(owner: string -> string, vendor: string, s: Sys) returns (t: Trace)
    requires Inv(owner, s) && AllSynced(ChangedOnly, s)
    ensures Traced(t) && t.owner == owner && t.vendor == vendor && t.start == s && t.now == s
  {
    t := Trace(owner, vendor, s, [], s);
  }

  lemma Advance(t: Trace, e: Event) returns (t': Trace)
    requires Traced(t) && Enabled(t.now, e) && WellFormed(t.owner, t.now, e) && Orderly(t.now, e)
    requires e.Acquire? || e.Unlock? || e.Prune? || (e.Do? && t.now.procs[e.pid].vendor == t.vendor)
    ensures Traced(t') && Continues(t, t') && t'.now == Step(ChangedOnly, t.now, e)
  {
    t' := Trace(t.owner, t.vendor, t.start, t.events + [e], Step(ChangedOnly, t.now, e));
    HistoryChains(ChangedOnly, t.start, t.events, [e]);
    StepKeepsInv(t.owner, ChangedOnly, t.now, e);
    StepKeepsSynced(t.owner, ChangedOnly, t.now, e);
    if e.Do? {
      ActSparesVendors(t.owner, t.now, e.pid, e.act);
    }
  }

  lemma ActSparesVendors(owner: string -> string, s: Sys, pid: nat, act: Act)
    requires Inv(owner, s) && Enabled(s, Do(pid, act))
    ensures SparesOthers(s.procs[pid].vendor, s.db, DbAfter(ChangedOnly, s.db, s.procs[pid], act))
  {
    var p := s.procs[pid];
    forall v | v != p.vendor
      ensures VendorRows(DbAfter(ChangedOnly, s.db, p, act).products, v) == VendorRows(s.db.products, v)
    {
      ActSparesOthers(owner, ChangedOnly, s.db, pid, p, act, NewProc(v));
    }
  }

  lemma Entered(t: Trace, db: Database, others: map<nat, Proc>, session: nat) returns (t': Trace)
    requires Traced(t) && t.now == Sys(db, others) && session !in others && t.vendor !in db.locks
    ensures Continues(t, t')
    ensures At(t', db.(locks := db.locks[t.vendor := session]), others, session, NewProc(t.vendor))
  {
    t' := Advance(t, Acquire(session, t.vendor));
  }

  lemma Acted(t: Trace, db: Database, others: map<nat, Proc>, session: nat, p: Proc, act: Act) returns (t': Trace)
    requires At(t, db, others, session, p) && CanAct(db, p, act)
    requires act.Deliver? ==> Owned(t.owner, p.vendor, act.products)
    ensures Continues(t, t')
    ensures At(t', DbAfter(ChangedOnly, db, p, act), others, session, ProcAfter(ChangedOnly, db, p, act))
  {
    DoStep(db, others, session, p, act);
    t' := Advance(t, Do(session, act));
  }

  lemma Pruned(t: Trace, db: Database, others: map<nat, Proc>, session: nat, p: Proc, cutoff: int) returns (t': Trace)
    requires At(t, db, others, session, p)
    ensures Continues(t, t') && At(t', PruneScrapeRuns(db, cutoff), others, session, p)
  {
    t' := Advance(t, Prune(cutoff));
  }

  lemma DoStep(db: Database, others: map<nat, Proc>, session: nat, p: Proc, act: Act)
    requires CanAct(db, p, act)
    ensures var s := Sys(db, others[session := p]);
            && Enabled(s, Do(session, act))
            && Step(ChangedOnly, s, Do(session, act))
               == Sys(DbAfter(ChangedOnly, db, p, act), others[session := ProcAfter(ChangedOnly, db, p, act)])
  {
    assert others[session := p][session := ProcAfter(ChangedOnly, db, p, act)]
        == others[session := ProcAfter(ChangedOnly, db, p, act)];
  }

  /** The process while the batch of its only call is being written. */
  function Writing(p: Proc, products: seq<Product>, written: nat): Proc {
    p.(calls := map["" := Call(products, written)])
  }

  lemma WritesOne(db: Database, p: Proc, products: seq<Product>, i: nat)
    requires p.phase.Scraping? && i < |products|
    ensures var end := Min(i + BATCH_SIZE, |products|);
            var q := Writing(p, products, i);
            && CanAct(db, q, UpsertChunk(""))
            && DbAfter(ChangedOnly, db, q, UpsertChunk("")) == UpsertBatchRows(ChangedOnly, db, products[i..end])
            && ProcAfter(ChangedOnly, db, q, UpsertChunk("")) == Writing(p, products, end)
  {
    var q := Writing(p, products, i);
    assert NextWrite(q.calls[""]) == products[i..Min(i + BATCH_SIZE, |products|)];
    var c := q.calls[""];
    assert q.calls["" := c.(written := c.written + |NextWrite(c)|)]
        == map["" := c.(written := c.written + |NextWrite(c)|)];
  }

  /** The database once the first `k` chunks are stored. */
  ghost function Chunked(db: Database, chunks: seq<seq<Product>>, k: nat): Database
    requires k <= |chunks|
  {
    db.(products := UpsertChunks(ChangedOnly, db.products, chunks[..k], db.clock), clock := db.clock + k)
  }

  function WrittenAfter(products: seq<Product>, k: nat): nat {
    Min(k * BATCH_SIZE, |products|)
  }

  lemma WrittenNext(products: seq<Product>, k: nat)
    requires k < |Chunks(products)|
    ensures var i := WrittenAfter(products, k);
            && i < |products| && WrittenAfter(products, k + 1) == Min(i + BATCH_SIZE, |products|)
            && Chunks(products)[k] == products[i..Min(i + BATCH_SIZE, |products|)]
  {
    ChunkAt(products, k, k * BATCH_SIZE);
  }

  lemma ChunkStored(db: Database, chunks: seq<seq<Product>>, k: nat)
    requires k < |chunks|
    ensures Chunked(db, chunks, k + 1) == UpsertBatchRows(ChangedOnly, Chunked(db, chunks, k), chunks[k])
  {
    OneMoreChunk(db.products, chunks, db.clock, k);
    OneStatement(db, UpsertChunks(ChangedOnly, db.products, chunks[..k], db.clock), chunks[k], k,
                 UpsertChunks(ChangedOnly, db.products, chunks[..k + 1], db.clock));
  }

  lemma OneStatement(db: Database, was: Table, batch: seq<Product>, k: nat, now: Table)
    requires now == UpsertStatement(ChangedOnly, was, batch, db.clock + k + 1)
    ensures db.(products := now, clock := db.clock + (k + 1))
         == UpsertBatchRows(ChangedOnly, db.(products := was, clock := db.clock + k), batch)
  {
  }

  lemma ChunkIsStep(t: Trace, db: Database, others: map<nat, Proc>, session: nat, p: Proc, products: seq<Product>,
                    i: nat)
      returns (t': Trace)
    requires p.phase.Scraping? && i < |products| && At(t, db, others, session, Writing(p, products, i))
    ensures var end := Min(i + BATCH_SIZE, |products|);
            At(t', UpsertBatchRows(ChangedOnly, db, products[i..end]), others, session, Writing(p, products, end))
    ensures Continues(t, t')
  {
    WritesOne(db, p, products, i);
    t' := Acted(t, db, others, session, Writing(p, products, i), UpsertChunk(""));
  }

  lemma OneMoreStep(t: Trace, db: Database, others: map<nat, Proc>, session: nat, p: Proc, products: seq<Product>,
                    k: nat)
      returns (t': Trace)
    requires p.phase.Scraping? && k < |Chunks(products)|
    requires At(t, Chunked(db, Chunks(products), k), others, session, Writing(p, products, WrittenAfter(products, k)))
    ensures Continues(t, t')
    ensures At(t', Chunked(db, Chunks(products), k + 1), others, session,
               Writing(p, products, WrittenAfter(products, k + 1)))
  {
    ChunkStored(db, Chunks(products), k);
    WrittenNext(products, k);
    t' := ChunkIsStep(t, Chunked(db, Chunks(products), k), others, session, p, products, WrittenAfter(products, k));
  }

  /** The chunks stored one after the other are the machine's upsert steps. */
  lemma {:induction false} ChunksAreSteps(t: Trace, db: Database, others: map<nat, Proc>, session: nat, p: Proc,
                                          products: seq<Product>, k: nat) returns (t': Trace)
    requires p.phase.Scraping? && k <= |Chunks(products)|
    requires At(t, db, others, session, Writing(p, products, 0))
    ensures Continues(t, t')
    ensures At(t', Chunked(db, Chunks(products), k), others, session, Writing(p, products, WrittenAfter(products, k)))
  {
    if k == 0 {
      NothingChunked(db, products);
      t' := t;
    } else {
      var before := ChunksAreSteps(t, db, others, session, p, products, k - 1);
      t' := OneMoreStep(before, db, others, session, p, products, k - 1);
    }
  }

  lemma NothingChunked(db: Database, products: seq<Product>)
    ensures Chunked(db, Chunks(products), 0) == db && WrittenAfter(products, 0) == 0
  {
  }

  lemma {:induction false} ChunksOnlyAdd(table: Table, chunks: seq<seq<Product>>, now: int)
    ensures table.Keys <= UpsertChunks(ChangedOnly, table, chunks, now).Keys
  {
    if chunks != [] {
      ChunksOnlyAdd(table, chunks[..|chunks| - 1], now);
    }
  }

  /** UpsertProducts: chunk after chunk until one fails. */
  method UpsertAll(store: Store, products: seq<Product>, failAt: nat, ghost t: Trace, ghost others: map<nat, Proc>,
                   ghost session: nat, ghost p: Proc)
      returns (ok: bool, ghost written: nat, ghost t': Trace)
    requires p.phase.Scraping? && At(t, store.State(), others, session, Writing(p, products, 0))
    modifies store
    ensures At(t', store.State(), others, session, Writing(p, products, written)) && Continues(t, t')
    ensures written == Min(failAt * BATCH_SIZE, |products|) && (ok <==> failAt * BATCH_SIZE >= |products|)
    ensures OnlyAdds(old(store.State()), store.State())
  {
    ghost var db := store.State();
    var done;
    ok, done := store.UpsertProducts(products, failAt);
    FailsAt(products, failAt);
    written := WrittenAfter(products, done);
    t' := ChunksAreSteps(t, db, others, session, p, products, done);
    ChunksOnlyAdd(db.products, Chunks(products)[..done], db.clock);
  }

  lemma FailsAt(products: seq<Product>, failAt: nat)
    ensures failAt >= |Chunks(products)| <==> failAt * BATCH_SIZE >= |products|
    ensures WrittenAfter(products, Min(failAt, |Chunks(products)|)) == Min(failAt * BATCH_SIZE, |products|)
  {
    ChunksReachTo(products, |Chunks(products)|, |Chunks(products)| * BATCH_SIZE);
    if failAt < |Chunks(products)| {
      ChunksReachTo(products, failAt, failAt * BATCH_SIZE);
    }
  }

  /** All chunks go through, and so does the mark. */
  predicate BatchOk(m: Move)
    requires m.Batch?
  {
    m.failAt * BATCH_SIZE >= |m.products| && m.markOk
  }

  /** What the handler leaves behind. */
  function Handled(p: Proc, products: seq<Product>, ok: bool, swallowed: bool): Proc {
    var p := p.(delivered := p.delivered + Hashes(products));
    if ok then p.(ingested := p.ingested + |products|)
    else if swallowed then p.(failed := p.failed + 1)
    else p.(errored := true)
  }

  lemma DeliverBegins(db: Database, p: Proc, products: seq<Product>)
    requires p.phase.Scraping? && p.calls == map[] && |products| > 0
    ensures CanAct(db, p, Deliver("", products))
    ensures ProcAfter(ChangedOnly, db, p, Deliver("", products))
         == Writing(p.(delivered := p.delivered + Hashes(products)), products, 0)
  {
    assert p.calls["" := Call(products, 0)] == map["" := Call(products, 0)];
  }

  lemma HandlerEnds(db: Database, p: Proc, products: seq<Product>, written: nat, ok: bool, swallowed: bool)
    requires p.phase.Scraping? && p.calls == map[] && written <= |products| && (ok ==> written == |products|)
    ensures var q := Writing(p.(delivered := p.delivered + Hashes(products)), products, written);
            var act := if ok then MarkBatch("") else HandlerFails("", swallowed);
            && CanAct(db, q, act)
            && ProcAfter(ChangedOnly, db, q, act) == Handled(p, products, ok, swallowed)
  {
    assert map["" := Call(products, written)] - {""} == map[];
  }

  /** The product handler: upsert, then mark, then count. Failing to mark fails
      the batch, or the cleanup would take its products for stale. */
  method Handle(store: Store, runId: nat, b: Move, ghost t: Trace, ghost others: map<nat, Proc>, ghost session: nat,
                ghost p: Proc)
      returns (ok: bool, ghost t': Trace)
    requires b.Batch? && |b.products| > 0 && Owned(t.owner, p.vendor, b.products)
    requires p.phase.Scraping? && p.calls == map[] && p.run == runId
    requires At(t, store.State(), others, session, p)
    modifies store
    ensures Continues(t, t')
    ensures At(t', store.State(), others, session, Handled(p, b.products, ok, b.swallowed))
    ensures ok == BatchOk(b) && OnlyAdds(old(store.State()), store.State())
  {
    ghost var q := p.(delivered := p.delivered + Hashes(b.products));
    DeliverBegins(store.State(), p, b.products);
    t' := Acted(t, store.State(), others, session, p, Deliver("", b.products));
    ghost var written;
    ok, written, t' := UpsertAll(store, b.products, b.failAt, t', others, session, q);
    ok := ok && b.markOk;
    t' := Settle(store, runId, b.products, ok, b.swallowed, t', others, session, p, written);
  }

  /** The end of a handler call: the batch is marked and counted, or it failed. */
  method Settle(store: Store, runId: nat, products: seq<Product>, ok: bool, ghost swallowed: bool, ghost t: Trace,
                ghost others: map<nat, Proc>, ghost session: nat, ghost p: Proc, ghost written: nat)
      returns (ghost t': Trace)
    requires p.phase.Scraping? && p.calls == map[] && p.run == runId
    requires written <= |products| && (ok ==> written == |products|)
    requires At(t, store.State(), others, session,
                Writing(p.(delivered := p.delivered + Hashes(products)), products, written))
    modifies store`seen
    ensures Continues(t, t') && At(t', store.State(), others, session, Handled(p, products, ok, swallowed))
    ensures OnlyAdds(old(store.State()), store.State())
  {
    HandlerEnds(store.State(), p, products, written, ok, swallowed);
    t' := Acted(t, store.State(), others, session,
                Writing(p.(delivered := p.delivered + Hashes(products)), products, written),
                if ok then MarkBatch("") else HandlerFails("", swallowed));
    if ok {
      store.RecordSeen(runId, products);
    }
  }

  function BatchHashes(m: Move): set<string> {
    if m.Batch? && |m.products| > 0 then Hashes(m.products) else {}
  }

  /** The hashes of every batch the scraper hands over. */
  function DeliveredBy(moves: seq<Move>): set<string> {
    if moves == [] then {} else DeliveredBy(moves[..|moves| - 1]) + BatchHashes(moves[|moves| - 1])
  }

  ghost predicate AllOwned(owner: string -> string, vendor: string, moves: seq<Move>) {
    forall i :: 0 <= i < |moves| && moves[i].Batch? ==> Owned(owner, vendor, moves[i].products)
  }

  /** What a scrape has counted and handed over. */
  datatype Tally = Tally(total: nat, failedServices: nat, err: bool, delivered: set<string>)

  function Scraped(p: Proc, y: Tally): Proc {
    p.(ingested := y.total, failed := y.failedServices, errored := y.err, delivered := y.delivered)
  }

  function Plus(y: Tally, m: Move): Tally {
    match m
    case Batch(products, _, _, swallowed) =>
      if |products| == 0 then y
      else
        var y := y.(delivered := y.delivered + Hashes(products));
        if BatchOk(m) then y.(total := y.total + |products|)
        else if swallowed then y.(failedServices := y.failedServices + 1)
        else y.(err := true)
    case ServiceDown => y.(failedServices := y.failedServices + 1)
    case Breakdown => y.(err := true)
  }

  function TallyOf(moves: seq<Move>): Tally {
    if moves == [] then Tally(0, 0, false, {}) else Plus(TallyOf(moves[..|moves| - 1]), moves[|moves| - 1])
  }

  predicate WentWell(m: Move) {
    m.Batch? && (|m.products| == 0 || BatchOk(m))
  }

  /** Failures leave their trace in the counters, and nowhere is a failure
      forgotten: the counters are clean exactly when every move went well. */
  lemma {:induction false} CleanTallyIff(moves: seq<Move>)
    ensures !TallyOf(moves).err && TallyOf(moves).failedServices == 0
            <==> forall i :: 0 <= i < |moves| ==> WentWell(moves[i])
    ensures TallyOf(moves).delivered == DeliveredBy(moves)
    ensures DeliveredBy(moves) == {} ==> TallyOf(moves).total == 0
    decreases |moves|
  {
    if moves != [] {
      var n := |moves| - 1;
      CleanTallyIff(moves[..n]);
      assert forall i :: 0 <= i < n ==> moves[..n][i] == moves[i];
      if moves[n].Batch? && |moves[n].products| > 0 {
        assert moves[n].products[0].hash in Hashes(moves[n].products);
      }
    }
  }

  lemma MoveCounts(p: Proc, db: Database, y: Tally, m: Move)
    requires p.phase.Scraping?
    ensures m.Batch? && |m.products| > 0 ==>
              Handled(Scraped(p, y), m.products, BatchOk(m), m.swallowed) == Scraped(p, Plus(y, m))
    ensures m.ServiceDown? ==>
              && CanAct(db, Scraped(p, y), ServiceFails)
              && ProcAfter(ChangedOnly, db, Scraped(p, y), ServiceFails) == Scraped(p, Plus(y, m))
    ensures m.Breakdown? ==>
              && CanAct(db, Scraped(p, y), ScrapeErrors)
              && ProcAfter(ChangedOnly, db, Scraped(p, y), ScrapeErrors) == Scraped(p, Plus(y, m))
  {
  }

  /** One move of the scraper. */
  method OneMove(store: Store, runId: nat, m: Move, ghost y: Tally, ghost t: Trace, ghost others: map<nat, Proc>,
                 ghost session: nat, ghost p: Proc)
      returns (ok: bool, ghost t': Trace)
    requires p.phase.Scraping? && p.calls == map[] && p.run == runId
    requires At(t, store.State(), others, session, Scraped(p, y))
    requires m.Batch? ==> Owned(t.owner, p.vendor, m.products)
    modifies store
    ensures Continues(t, t') && At(t', store.State(), others, session, Scraped(p, Plus(y, m)))
    ensures OnlyAdds(old(store.State()), store.State())
    ensures m.Batch? ==> ok == WentWell(m)
  {
    ok, t' := true, t;
    MoveCounts(p, store.State(), y, m);
    match m {
      case Batch(products, _, _, _) =>
        if |products| > 0 {
          ok, t' := Handle(store, runId, m, t, others, session, Scraped(p, y));
        }
      case ServiceDown =>
        t' := Acted(t, store.State(), others, session, Scraped(p, y), ServiceFails);
      case Breakdown =>
        t' := Acted(t, store.State(), others, session, Scraped(p, y), ScrapeErrors);
    }
  }

  /** ScrapeWithHandler, its tasks in some order, with the counters of the code. */
  method Scrape(store: Store, runId: nat, moves: seq<Move>, ghost t: Trace, ghost others: map<nat, Proc>,
                ghost session: nat, ghost p: Proc)
      returns (total: nat, failedServices: nat, err: bool, ghost t': Trace)
    requires p.phase.Scraping? && p.calls == map[] && p.run == runId
    requires At(t, store.State(), others, session, Scraped(p, Tally(0, 0, false, {})))
    requires AllOwned(t.owner, p.vendor, moves)
    modifies store
    ensures Continues(t, t') && At(t', store.State(), others, session, Scraped(p, TallyOf(moves)))
    ensures OnlyAdds(old(store.State()), store.State())
    ensures var y := TallyOf(moves); total == y.total && failedServices == y.failedServices && err == y.err
  {
    total, failedServices, err, t' := 0, 0, false, t;
    for i := 0 to |moves|
      invariant Continues(t, t') && At(t', store.State(), others, session, Scraped(p, TallyOf(moves[..i])))
      invariant OnlyAdds(old(store.State()), store.State())
      invariant var y := TallyOf(moves[..i]); total == y.total && failedServices == y.failedServices && err == y.err
    {
      var m := moves[i];
      assert moves[..i + 1][..i] == moves[..i];
      var ok;
      ok, t' := OneMove(store, runId, m, TallyOf(moves[..i]), t', others, session, p);
      match m {
        case Batch(products, _, _, swallowed) =>
          if ok {
            total := total + |products|;
          } else if swallowed {
            failedServices := failedServices + 1;
          } else {
            err := true;
          }
        case ServiceDown => failedServices := failedServices + 1;
        case Breakdown => err := true;
      }
    }
    assert moves[..|moves|] == moves;
  }

  // ---------------------------------------------------------------- cleanup and conclusion

  /** deleteStaleIfSeenSetComplete; `cleaned` tells whether the delete ran. */
  method DeleteIfSeenSetComplete(store: Store, w: World, ghost t: Trace, ghost others: map<nat, Proc>,
                                 ghost session: nat, vendor: string, runId: nat, start: int, ingested: nat,
                                 ghost p: Proc)
      returns (deleted: nat, cleaned: bool, ghost t': Trace, ghost p': Proc)
    requires p.phase.Counting? && p.vendor == vendor && p.run == runId && p.start == start && p.ingested == ingested
    requires At(t, store.State(), others, session, p)
    modifies store`products
    ensures Continues(t, t') && At(t', store.State(), others, session, p')
    ensures p'.phase.Finishing? && p'.outcome.Success? && p'.recorded == ingested && p'.deleted == deleted
    ensures SameRun(p, p')
    ensures cleaned <==> w.countOk && |p.delivered| > 0 && |p.delivered| >= ingested / 2 && w.deleteOk
    ensures cleaned ==> VendorHashes(store.products, vendor) == p.delivered
    ensures !cleaned ==> store.State() == old(store.State())
  {
    deleted, cleaned, p' := 0, false, p;
    ghost var db := store.State();
    if !w.countOk {
      t' := Acted(t, db, others, session, p, CountFails);
      p' := ProcAfter(ChangedOnly, db, p, CountFails);
      return;
    }
    Survivors(t, db, others, session, p);
    var seen := store.CountSeen(runId);
    t' := Acted(t, db, others, session, p, CountSeen);
    p' := ProcAfter(ChangedOnly, db, p, CountSeen);
    if !SeenSetComplete(seen, ingested) {
      return;
    }
    deleted, cleaned, t', p' := Delete(store, w, t', others, session, vendor, runId, start, p');
  }

  method Delete(store: Store, w: World, ghost t: Trace, ghost others: map<nat, Proc>, ghost session: nat,
                vendor: string, runId: nat, start: int, ghost p: Proc)
      returns (deleted: nat, cleaned: bool, ghost t': Trace, ghost p': Proc)
    requires p.phase.Deleting? && p.vendor == vendor && p.run == runId && p.start == start
    requires At(t, store.State(), others, session, p)
    modifies store`products
    ensures Continues(t, t') && At(t', store.State(), others, session, p')
    ensures p'.phase.Finishing? && p'.outcome.Success? && p'.recorded == p.ingested && p'.deleted == deleted
    ensures SameRun(p, p') && cleaned == w.deleteOk
    ensures if cleaned then store.State() == DeleteStaleProducts(ChangedOnly, old(store.State()), vendor, runId, start)
            else store.State() == old(store.State())
  {
    ghost var act := if w.deleteOk then DeleteStale else DeleteFails;
    t' := Acted(t, store.State(), others, session, p, act);
    p' := ProcAfter(ChangedOnly, store.State(), p, act);
    deleted, cleaned := 0, w.deleteOk;
    if w.deleteOk {
      deleted := store.DeleteStale(vendor, runId, start);
    }
  }

  ghost predicate SameRun(p: Proc, p': Proc) {
    p'.vendor == p.vendor && p'.run == p.run && p'.delivered == p.delivered
  }

  lemma Survivors(t: Trace, db: Database, others: map<nat, Proc>, session: nat, p: Proc)
    requires At(t, db, others, session, p) && p.phase.Counting?
    ensures SeenBy(db.seen, p.run) == p.delivered
    ensures VendorHashes(DeleteStaleProducts(ChangedOnly, db, p.vendor, p.run, p.start).products, p.vendor)
         == p.delivered
  {
    assert t.now.procs[session] == p;
    SurvivorsAreDelivered(t.owner, db, session, p);
  }

  /** What a run decided: how to record it, and whether its cleanup ran. */
  datatype Verdict = Verdict(outcome: Status, recorded: nat, deleted: nat, cleaned: bool)

  ghost predicate Ready(p: Proc, p': Proc, v: Verdict) {
    && SameRun(p, p') && p'.phase.Finishing?
    && p'.outcome == v.outcome && p'.recorded == v.recorded && p'.deleted == v.deleted
  }

  /** Everything the cleanup waits for: no failure, some products, not fewer than
      half the previous count, and at least half as many distinct hashes as
      products. */
  ghost predicate Trusted(w: World, y: Tally, previous: nat) {
    && !y.err && y.failedServices == 0 && y.total > 0 && (previous > 0 ==> y.total >= previous / 2)
    && w.countOk && |y.delivered| > 0 && |y.delivered| >= y.total / 2 && w.deleteOk
  }

  ghost predicate PreviousAnswer(w: World, runs: map<nat, Run>, vendor: string, previous: nat) {
    if w.previousOk then IsPreviousCount(runs, vendor, previous) else previous == 0
  }

  /** The cleanup ran exactly when it should have, given what the database
      answered for the previous count. */
  ghost predicate Decided(w: World, runs: map<nat, Run>, vendor: string, y: Tally, cleaned: bool) {
    exists previous: nat :: PreviousAnswer(w, runs, vendor, previous) && (cleaned <==> Trusted(w, y, previous))
  }

  lemma PriorRow(runs: map<nat, Run>, vendor: string, count: nat) returns (prior: Option<nat>)
    requires IsPreviousCount(runs, vendor, count)
    ensures prior.Some? ==> IsLatestSuccess(runs, vendor, prior.value) && count == runs[prior.value].products
    ensures prior.None? ==> count == 0
  {
    prior := None;
    if exists r :: r in runs && Succeeded(runs[r], vendor) {
      var r :| IsLatestSuccess(runs, vendor, r) && count == runs[r].products;
      prior := Some(r);
    }
  }

  /** A run that has just begun is no previous success. */
  lemma BegunRunIsNoSuccess(runs: map<nat, Run>, id: nat, run: Run, vendor: string, count: nat)
    requires id !in runs && run.status.Running? && IsPreviousCount(runs[id := run], vendor, count)
    ensures IsPreviousCount(runs, vendor, count)
  {
    var longer := runs[id := run];
    if exists r :: r in longer && Succeeded(longer[r], vendor) {
      var r :| IsLatestSuccess(longer, vendor, r) && count == longer[r].products;
      assert r in runs && Succeeded(runs[r], vendor);
      assert forall q :: q in runs && Succeeded(runs[q], vendor) ==> q in longer && Succeeded(longer[q], vendor);
      assert IsLatestSuccess(runs, vendor, r);
    } else {
      assert forall q :: q in runs && Succeeded(runs[q], vendor) ==> q in longer && Succeeded(longer[q], vendor);
    }
  }

  lemma DecidedBefore(w: World, runs: map<nat, Run>, id: nat, run: Run, vendor: string, y: Tally, cleaned: bool)
    requires id !in runs && run.status.Running? && Decided(w, runs[id := run], vendor, y, cleaned)
    ensures Decided(w, runs, vendor, y, cleaned)
  {
    var previous: nat :| PreviousAnswer(w, runs[id := run], vendor, previous) && (cleaned <==> Trusted(w, y, previous));
    if w.previousOk {
      BegunRunIsNoSuccess(runs, id, run, vendor, previous);
    }
    assert PreviousAnswer(w, runs, vendor, previous);
  }

  method ReadPreviousCount(store: Store, w: World, ghost t: Trace, ghost others: map<nat, Proc>, ghost session: nat,
                           vendor: string, ghost p: Proc)
      returns (previous: nat, ghost t': Trace)
    requires p.phase.Judging? && p.vendor == vendor && At(t, store.State(), others, session, p)
    ensures PreviousAnswer(w, store.runs, vendor, previous)
    ensures Continues(t, t') && At(t', store.State(), others, session, Judge(p, previous))
  {
    previous := 0;
    ghost var prior: Option<nat> := None;
    if w.previousOk {
      previous := store.PreviousCount(vendor);
      prior := PriorRow(store.runs, vendor, previous);
    }
    t' := Acted(t, store.State(), others, session, p, ReadPrevious(prior));
  }

  /** The guards after a scrape that returned: nothing ingested is a failure; a
      failed service or a halved product count skips the cleanup. */
  method JudgeRun(store: Store, w: World, ghost t: Trace, ghost others: map<nat, Proc>, ghost session: nat,
                  vendor: string, runId: nat, start: int, total: nat, failedServices: nat, ghost p: Proc)
      returns (v: Verdict, ghost t': Trace, ghost p': Proc)
    requires p.phase.Judging? && p.vendor == vendor && p.run == runId && p.start == start
    requires p.ingested == total && p.failed == failedServices
    requires At(t, store.State(), others, session, p)
    modifies store`products
    ensures Continues(t, t') && At(t', store.State(), others, session, p') && Ready(p, p', v)
    ensures v.outcome == (if total == 0 then Failed else Success) && v.recorded == total
    ensures Decided(w, store.runs, vendor, Tally(total, failedServices, false, p.delivered), v.cleaned)
    ensures v.cleaned ==> VendorHashes(store.products, vendor) == p.delivered
    ensures !v.cleaned ==> store.State() == old(store.State())
  {
    ghost var y := Tally(total, failedServices, false, p.delivered);
    var previous;
    previous, t' := ReadPreviousCount(store, w, t, others, session, vendor, p);
    p' := Judge(p, previous);
    if total == 0 {
      v := Verdict(Failed, 0, 0, false);
    } else if failedServices > 0 || (previous > 0 && total < previous / 2) {
      v := Verdict(Success, total, 0, false);
    } else {
      var deleted, cleaned;
      deleted, cleaned, t', p' :=
          DeleteIfSeenSetComplete(store, w, t', others, session, vendor, runId, start, total, p');
      v := Verdict(Success, total, deleted, cleaned);
    }
    assert v.cleaned <==> Trusted(w, y, previous);
  }

  /** FinishScrapeRun, then the deferred ClearSeen and unlock. */
  method Conclude(store: Store, w: World, ghost t: Trace, ghost others: map<nat, Proc>, ghost session: nat,
                  vendor: string, runId: nat, v: Verdict, ghost p: Proc)
      returns (ghost t': Trace)
    requires p.phase.Finishing? && p.vendor == vendor && p.run == runId && runId in store.runs
    requires p.outcome == v.outcome && p.recorded == v.recorded && p.deleted == v.deleted
    requires session !in others && At(t, store.State(), others, session, p)
    modifies store
    ensures Continues(t, t') && Traced(t') && t'.now == Sys(store.State(), others)
    ensures store.products == old(store.products) && store.locks == old(store.locks) - {vendor}
    ensures w.finishOk && Recent(w, old(store.clock)) ==> Recorded(store.runs, runId, v.outcome, v.recorded)
    ensures v.outcome == Success && w.retain > 0 && w.pruneOk ==> NoneOlder(store.runs, w.appClock - w.retain)
    ensures w.clearOk ==> SeenBy(store.seen, runId) == {}
  {
    ghost var q;
    t', q := RecordAndTrim(store, w, t, others, session, runId, v, p);
    t', q := Forget(store, w, t', others, session, runId, q);
    t' := Leave(store, t', others, session, vendor, q);
  }

  method RecordAndTrim(store: Store, w: World, ghost t: Trace, ghost others: map<nat, Proc>, ghost session: nat,
                       runId: nat, v: Verdict, ghost p: Proc)
      returns (ghost t': Trace, ghost p': Proc)
    requires p.phase.Finishing? && p.run == runId && runId in store.runs
    requires p.outcome == v.outcome && p.recorded == v.recorded && p.deleted == v.deleted
    requires At(t, store.State(), others, session, p)
    modifies store
    ensures Continues(t, t') && At(t', store.State(), others, session, p') && p' == p.(phase := Clearing)
    ensures store.products == old(store.products) && store.locks == old(store.locks)
    ensures w.finishOk && Recent(w, old(store.clock)) ==> Recorded(store.runs, runId, v.outcome, v.recorded)
    ensures v.outcome == Success && w.retain > 0 && w.pruneOk ==> NoneOlder(store.runs, w.appClock - w.retain)
  {
    t', p' := Record(store, w, t, others, session, runId, v, p);
    t' := Trim(store, w, t', others, session, runId, v, p');
  }

  /** The retention window reaches back at least to database time `clock`. */
  predicate Recent(w: World, clock: int) {
    w.retain <= 0 || w.appClock - w.retain <= clock
  }

  ghost predicate NoneOlder(runs: map<nat, Run>, cutoff: int) {
    forall r :: r in runs && runs[r].finishedAt.Some? ==> runs[r].finishedAt.value >= cutoff
  }

  /** After a success, old run rows go; failing to prune is only logged. */
  method Trim(store: Store, w: World, ghost t: Trace, ghost others: map<nat, Proc>, ghost session: nat,
              ghost runId: nat, v: Verdict, ghost p: Proc)
      returns (ghost t': Trace)
    requires At(t, store.State(), others, session, p)
    modifies store`runs
    ensures Continues(t, t') && At(t', store.State(), others, session, p)
    ensures v.outcome == Success && w.retain > 0 && w.pruneOk ==> NoneOlder(store.runs, w.appClock - w.retain)
    ensures runId in old(store.runs) && old(store.runs[runId].finishedAt.Some?)
            && Recent(w, old(store.runs[runId].finishedAt.value)) ==>
              runId in store.runs && store.runs[runId] == old(store.runs[runId])
    ensures forall r :: r in store.runs ==> r in old(store.runs) && store.runs[r] == old(store.runs[r])
  {
    t' := t;
    if v.outcome == Success && w.retain > 0 && w.pruneOk {
      t' := Pruned(t, store.State(), others, session, p, w.appClock - w.retain);
      var removed := store.Prune(w.retain, w.appClock);
    }
  }

  ghost predicate Recorded(runs: map<nat, Run>, id: nat, outcome: Status, count: nat) {
    id in runs && runs[id].status == outcome && runs[id].products == count && runs[id].finishedAt.Some?
  }

  method Record(store: Store, w: World, ghost t: Trace, ghost others: map<nat, Proc>, ghost session: nat,
                runId: nat, v: Verdict, ghost p: Proc)
      returns (ghost t': Trace, ghost p': Proc)
    requires p.phase.Finishing? && p.run == runId && runId in store.runs
    requires p.outcome == v.outcome && p.recorded == v.recorded && p.deleted == v.deleted
    requires At(t, store.State(), others, session, p)
    modifies store
    ensures Continues(t, t') && At(t', store.State(), others, session, p') && p' == p.(phase := Clearing)
    ensures store.products == old(store.products) && store.locks == old(store.locks)
    ensures w.finishOk ==> Recorded(store.runs, runId, v.outcome, v.recorded)
    ensures w.finishOk ==> store.runs[runId].finishedAt.value > old(store.clock)
  {
    p' := p.(phase := Clearing);
    t' := Acted(t, store.State(), others, session, p, if w.finishOk then Finish else FinishFails);
    if w.finishOk {
      store.FinishRun(runId, v.outcome, v.recorded, v.deleted);
    }
  }

  method Forget(store: Store, w: World, ghost t: Trace, ghost others: map<nat, Proc>, ghost session: nat,
                runId: nat, ghost p: Proc)
      returns (ghost t': Trace, ghost p': Proc)
    requires p.phase.Clearing? && p.run == runId && At(t, store.State(), others, session, p)
    modifies store`seen
    ensures Continues(t, t') && At(t', store.State(), others, session, p') && p' == p.(phase := Unlocking)
    ensures w.clearOk ==> SeenBy(store.seen, runId) == {}
  {
    p' := p.(phase := Unlocking);
    t' := Acted(t, store.State(), others, session, p, if w.clearOk then Clear else ClearFails);
    if w.clearOk {
      store.DropSeen(runId);
    }
  }

  method Leave(store: Store, ghost t: Trace, ghost others: map<nat, Proc>, ghost session: nat, vendor: string,
               ghost p: Proc)
      returns (ghost t': Trace)
    requires p.phase.Unlocking? && p.vendor == vendor && session !in others
    requires At(t, store.State(), others, session, p)
    modifies store`locks
    ensures Continues(t, t') && Traced(t') && t'.now == Sys(store.State(), others)
    ensures store.locks == old(store.locks) - {vendor}
  {
    assert others[session := p] - {session} == others;
    t' := Advance(t, Unlock(session));
    store.ReleaseScrapeLock(vendor);
  }

  /** The part under the vendor lock, once the run has its row. */
  method StartedRun(store: Store, vendor: string, w: World, start: int, runId: nat, ghost t: Trace,
                    ghost others: map<nat, Proc>, ghost session: nat, ghost p: Proc)
      returns (ok: bool, err: bool, cleaned: bool, ghost t': Trace)
    requires session !in others && p.phase.Scraping? && p == Scraped(p, Tally(0, 0, false, {})) && p.calls == map[]
    requires p.vendor == vendor && p.run == runId && p.start == start && runId in store.runs
    requires At(t, store.State(), others, session, p) && AllOwned(t.owner, vendor, w.moves)
    modifies store
    ensures Continues(t, t') && Traced(t') && t'.now == Sys(store.State(), others)
    ensures store.locks == old(store.locks) - {vendor}
    ensures err == TallyOf(w.moves).err && ok == (!err && TallyOf(w.moves).total > 0)
    ensures if err then !cleaned else Decided(w, old(store.runs), vendor, TallyOf(w.moves), cleaned)
    ensures cleaned ==> VendorHashes(store.products, vendor) == TallyOf(w.moves).delivered
    ensures !cleaned ==> old(store.products).Keys <= store.products.Keys
    ensures w.finishOk && Recent(w, old(store.clock)) ==>
              Recorded(store.runs, runId, if ok then Success else Failed, TallyOf(w.moves).total)
    ensures ok && w.retain > 0 && w.pruneOk ==> NoneOlder(store.runs, w.appClock - w.retain)
  {
    var total, failedServices;
    total, failedServices, err, t' := Scrape(store, runId, w.moves, t, others, session, p);
    ok, cleaned, t' := AfterScrape(store, vendor, w, start, runId, total, failedServices, err, t', others, session,
                                   Scraped(p, TallyOf(w.moves)));
  }

  lemma ScraperReturned(t: Trace, db: Database, others: map<nat, Proc>, session: nat, p: Proc)
      returns (t': Trace, q: Proc)
    requires p.phase.Scraping? && p.calls == map[] && At(t, db, others, session, p)
    ensures q == if p.errored then Ended(p, Failed, p.ingested, 0) else p.(phase := Judging)
    ensures Continues(t, t') && At(t', db, others, session, q)
  {
    t' := Acted(t, db, others, session, p, ScrapeReturns);
    q := ProcAfter(ChangedOnly, db, p, ScrapeReturns);
  }

  method AfterScrape(store: Store, vendor: string, w: World, start: int, runId: nat,
                     total: nat, failedServices: nat, err: bool, ghost t: Trace,
                     ghost others: map<nat, Proc>, ghost session: nat, ghost p: Proc)
      returns (ok: bool, cleaned: bool, ghost t': Trace)
    requires session !in others && p.phase.Scraping? && p.calls == map[]
    requires p.vendor == vendor && p.run == runId && p.start == start && runId in store.runs
    requires p.ingested == total && p.failed == failedServices && p.errored == err
    requires At(t, store.State(), others, session, p)
    modifies store
    ensures Continues(t, t') && Traced(t') && t'.now == Sys(store.State(), others)
    ensures store.locks == old(store.locks) - {vendor}
    ensures ok == (!err && total > 0)
    ensures if err then !cleaned
            else Decided(w, old(store.runs), vendor, Tally(total, failedServices, false, p.delivered), cleaned)
    ensures cleaned ==> VendorHashes(store.products, vendor) == p.delivered
    ensures !cleaned ==> store.products == old(store.products)
    ensures w.finishOk && Recent(w, old(store.clock)) ==>
              Recorded(store.runs, runId, if ok then Success else Failed, total)
    ensures ok && w.retain > 0 && w.pruneOk ==> NoneOlder(store.runs, w.appClock - w.retain)
  {
    ghost var q;
    t', q := ScraperReturned(t, store.State(), others, session, p);
    cleaned := false;
    var v := Verdict(Failed, total, 0, false);
    if !err {
      v, t', q := JudgeRun(store, w, t', others, session, vendor, runId, start, total, failedServices, q);
      cleaned := v.cleaned;
    }
    t' := Conclude(store, w, t', others, session, vendor, runId, v, q);
    ok := v.outcome == Success;
  }

  /** How a run that got the lock ends. Its failures are exactly the ones that
      happened, its cleanup ran exactly when it should have, a cleanup leaves
      exactly the delivered products, and without one no product goes. */
  ghost predicate Concluded(w: World, db: Database, db': Database, vendor: string, ok: bool, err: bool, cleaned: bool) {
    var y := TallyOf(w.moves);
    && (err <==> !w.clockOk || !w.startOk || y.err)
    && (ok <==> !err && y.total > 0)
    && (if err then !cleaned else Decided(w, db.runs, vendor, y, cleaned))
    && (cleaned ==> VendorHashes(db'.products, vendor) == DeliveredBy(w.moves))
    && (!cleaned ==> db.products.Keys <= db'.products.Keys)
    && (w.clockOk && w.startOk && w.finishOk && Recent(w, db.clock) ==>
          Recorded(db'.runs, db.nextRun, if ok then Success else Failed, y.total))
    && (ok && w.retain > 0 && w.pruneOk ==> NoneOlder(db'.runs, w.appClock - w.retain))
  }

  /** All chunks of 1000 went through, and the mark. */
  ghost predicate Stood(m: Move) {
    m.Batch? && m.failAt * 1000 >= |m.products| && m.markOk
  }

  /** The products of the batches that went through, in order. */
  ghost function Ingested(moves: seq<Move>): seq<Product> {
    if moves == [] then []
    else
      var m := moves[|moves| - 1];
      Ingested(moves[..|moves| - 1]) + if m.Batch? && Stood(m) then m.products else []
  }

  /** A failure that is counted, and one that ends the scrape. */
  ghost predicate IsCounted(m: Move) {
    m.ServiceDown? || (m.Batch? && m.products != [] && !Stood(m) && m.swallowed)
  }

  ghost predicate IsFatal(m: Move) {
    m.Breakdown? || (m.Batch? && m.products != [] && !Stood(m) && !m.swallowed)
  }

  /** Every move a batch, empty or through. */
  ghost predicate NothingFailed(moves: seq<Move>) {
    forall i :: 0 <= i < |moves| ==> moves[i].Batch? && (moves[i].products == [] || Stood(moves[i]))
  }

  /** The counters, said of the moves. */
  lemma {:induction false} TallyMeans(moves: seq<Move>)
    ensures TallyOf(moves).err <==> exists i :: 0 <= i < |moves| && IsFatal(moves[i])
    ensures TallyOf(moves).failedServices > 0 <==> exists i :: 0 <= i < |moves| && IsCounted(moves[i])
    ensures TallyOf(moves).total == |Ingested(moves)|
    ensures NothingFailed(moves) ==> TallyOf(moves).delivered == Hashes(Ingested(moves))
  {
    if moves != [] {
      var n := |moves| - 1;
      TallyMeans(moves[..n]);
      assert forall i :: 0 <= i < n ==> moves[..n][i] == moves[i];
      LastMoveMeans(TallyOf(moves[..n]), moves[n]);
      if i :| 0 <= i < n && IsFatal(moves[..n][i]) {
        assert IsFatal(moves[i]);
      }
      if i :| 0 <= i < n && IsCounted(moves[..n][i]) {
        assert IsCounted(moves[i]);
      }
      if moves[n].Batch? {
        HashesConcat(Ingested(moves[..n]), moves[n].products);
        assert moves[n].products == [] ==> Hashes(moves[n].products) == {};
      }
    }
  }

  lemma LastMoveMeans(y: Tally, m: Move)
    ensures Plus(y, m).err == (y.err || IsFatal(m))
    ensures Plus(y, m).failedServices == y.failedServices + if IsCounted(m) then 1 else 0
    ensures Plus(y, m).total == y.total + if m.Batch? && Stood(m) then |m.products| else 0
    ensures Plus(y, m).delivered == y.delivered + if m.Batch? && m.products != [] then Hashes(m.products) else {}
  {
  }

  /** What a run reports, and writes into its row: an error exactly if the database or
      the scraper gave up, success exactly if besides something was ingested. */
  lemma OutcomeRule(w: World, db: Database, db': Database, vendor: string, ok: bool, err: bool, cleaned: bool)
    requires Concluded(w, db, db', vendor, ok, err, cleaned)
    ensures err <==> !w.clockOk || !w.startOk || exists i :: 0 <= i < |w.moves| && IsFatal(w.moves[i])
    ensures ok <==> !err && Ingested(w.moves) != []
    ensures w.clockOk && w.startOk && w.finishOk && (w.retain <= 0 || w.appClock - w.retain <= db.clock) ==>
              var id := db.nextRun;
              && id in db'.runs && db'.runs[id].finishedAt.Some?
              && db'.runs[id].status == (if ok then Success else Failed)
              && db'.runs[id].products == |Ingested(w.moves)|
    ensures ok && w.retain > 0 && w.pruneOk ==>
              forall r :: r in db'.runs && db'.runs[r].finishedAt.Some? ==>
                db'.runs[r].finishedAt.value >= w.appClock - w.retain
  {
    TallyMeans(w.moves);
  }

  /** What the database answers for the count to compare with. */
  ghost predicate PreviousIs(w: World, runs: map<nat, Run>, vendor: string, previous: nat) {
    if w.previousOk && exists r :: r in runs && runs[r].vendor == vendor && runs[r].status == Success
                                   && runs[r].finishedAt.Some?
    then exists r :: LastSuccess(runs, vendor, r) && runs[r].products == previous
    else previous == 0
  }

  /** When a run that ends without error cleans up, in terms of what happened to it:
      nothing failed, something was ingested, not less than half of the vendor's last
      success, and at least half as many distinct hashes as products. */
  lemma CleanupRule(w: World, db: Database, db': Database, vendor: string, ok: bool, cleaned: bool)
    requires Concluded(w, db, db', vendor, ok, false, cleaned)
    ensures exists previous: nat ::
              && PreviousIs(w, db.runs, vendor, previous)
              && (cleaned <==>
                    && NothingFailed(w.moves) && w.countOk && w.deleteOk
                    && |Ingested(w.moves)| > 0 && |Ingested(w.moves)| >= previous / 2
                    && |Hashes(Ingested(w.moves))| >= |Ingested(w.moves)| / 2)
    ensures cleaned ==> forall h :: (h in db'.products && db'.products[h].product.vendor == vendor)
                                    <==> h in Hashes(Ingested(w.moves))
  {
    var y := TallyOf(w.moves);
    var previous: nat :| PreviousAnswer(w, db.runs, vendor, previous) && (cleaned <==> Trusted(w, y, previous));
    PreviousFound(w, db.runs, vendor, previous);
    CleanTallyIff(w.moves);
    TallyMeans(w.moves);
    WellIffNothingFailed(w.moves);
    if NothingFailed(w.moves) {
      if Ingested(w.moves) != [] {
        assert Ingested(w.moves)[0].hash in Hashes(Ingested(w.moves));
      }
    }
    VendorHashesAre(db'.products, vendor);
  }

  lemma WellIffNothingFailed(moves: seq<Move>)
    ensures NothingFailed(moves) <==> forall i :: 0 <= i < |moves| ==> WentWell(moves[i])
  {
  }

  lemma PreviousFound(w: World, runs: map<nat, Run>, vendor: string, previous: nat)
    requires PreviousAnswer(w, runs, vendor, previous)
    ensures PreviousIs(w, runs, vendor, previous)
  {
    if w.previousOk {
      PreviousCountMeans(runs, vendor, previous);
    }
  }

  /** Everything under the vendor lock; `was` is the database before the lock. */
  method LockedRun(store: Store, vendor: string, w: World, ghost was: Database, ghost t: Trace,
                   ghost others: map<nat, Proc>, ghost session: nat, ghost p: Proc)
      returns (ok: bool, err: bool, cleaned: bool, ghost t': Trace)
    requires session !in others && p == NewProc(vendor)
    requires At(t, store.State(), others, session, p) && AllOwned(t.owner, vendor, w.moves)
    requires store.State() == was.(locks := store.locks)
    modifies store
    ensures Continues(t, t') && Traced(t') && t'.now == Sys(store.State(), others)
    ensures store.locks == old(store.locks) - {vendor}
    ensures Concluded(w, was, store.State(), vendor, ok, err, cleaned)
  {
    ok, err, cleaned := false, true, false;
    if w.clockOk {
      t' := Acted(t, store.State(), others, session, p, ReadClock);
      ghost var q := ProcAfter(ChangedOnly, store.State(), p, ReadClock);
      var start := store.Now();
      if w.startOk {
        ok, err, cleaned, t' := BegunRun(store, vendor, w, start, t', others, session, q);
      } else {
        t' := GivenUp(store, vendor, t', others, session, q);
      }
    } else {
      t' := GivenUp(store, vendor, t, others, session, p);
    }
  }

  method GivenUp(store: Store, vendor: string, ghost t: Trace, ghost others: map<nat, Proc>, ghost session: nat,
                 ghost p: Proc)
      returns (ghost t': Trace)
    requires session !in others && (p.phase.Locked? || p.phase.Clocked?) && p.vendor == vendor
    requires At(t, store.State(), others, session, p)
    modifies store`locks
    ensures Continues(t, t') && Traced(t') && t'.now == Sys(store.State(), others)
    ensures store.locks == old(store.locks) - {vendor}
  {
    t' := Acted(t, store.State(), others, session, p, Abandon);
    t' := Leave(store, t', others, session, vendor, p.(phase := Unlocking));
  }

  method BegunRun(store: Store, vendor: string, w: World, start: int, ghost t: Trace, ghost others: map<nat, Proc>,
                  ghost session: nat, ghost p: Proc)
      returns (ok: bool, err: bool, cleaned: bool, ghost t': Trace)
    requires session !in others && p == NewProc(vendor).(phase := Clocked, start := start)
    requires At(t, store.State(), others, session, p) && AllOwned(t.owner, vendor, w.moves)
    requires w.clockOk && w.startOk
    modifies store
    ensures Continues(t, t') && Traced(t') && t'.now == Sys(store.State(), others)
    ensures store.locks == old(store.locks) - {vendor}
    ensures Concluded(w, old(store.State()), store.State(), vendor, ok, err, cleaned)
  {
    ghost var runs := store.runs;
    t' := Acted(t, store.State(), others, session, p, StartRun);
    ghost var q := ProcAfter(ChangedOnly, store.State(), p, StartRun);
    var runId := store.BeginRun(vendor, start);
    assert runId !in runs;
    ok, err, cleaned, t' := StartedRun(store, vendor, w, start, runId, t', others, session, q);
    CleanTallyIff(w.moves);
    if !err {
      DecidedBefore(w, runs, runId, Run(vendor, start, None, Running, 0, 0), vendor, TallyOf(w.moves), cleaned);
    }
  }

  lemma LockGoesBack(locks: map<string, nat>, vendor: string, session: nat)
    requires vendor !in locks
    ensures locks[vendor := session] - {vendor} == locks
  {
  }

  /** From the lock taken to the lock given back. */
  method UnderLock(store: Store, vendor: string, w: World, ghost was: Database, ghost t: Trace,
                   ghost others: map<nat, Proc>, ghost session: nat)
      returns (ok: bool, err: bool, cleaned: bool, ghost t': Trace)
    requires Traced(t) && t.vendor == vendor && t.start == t.now == Sys(was, others)
    requires session !in others && AllOwned(t.owner, vendor, w.moves)
    requires vendor !in was.locks && store.State() == was.(locks := was.locks[vendor := session])
    modifies store
    ensures Traced(t') && Continues(t, t') && t'.now == Sys(store.State(), others)
    ensures store.locks == was.locks && Concluded(w, was, store.State(), vendor, ok, err, cleaned)
  {
    t' := Entered(t, was, others, session);
    ok, err, cleaned, t' := LockedRun(store, vendor, w, was, t', others, session, NewProc(vendor));
    LockGoesBack(was.locks, vendor, session);
  }

  /** One whole run. Whatever fails along the way, what the code does is a
      history of the protocol machine that changes no other vendor's row and
      ends with the lock released. */
  method RunOneScrape(store: Store, session: nat, vendor: string, w: World, ghost owner: string -> string,
                      ghost others: map<nat, Proc>)
      returns (ok: bool, err: bool, cleaned: bool, ghost t: Trace)
    requires session !in others
    requires Inv(owner, Sys(store.State(), others)) && AllSynced(ChangedOnly, Sys(store.State(), others))
    requires AllOwned(owner, vendor, w.moves)
    modifies store
    ensures Traced(t) && t.start == Sys(old(store.State()), others) && t.now == Sys(store.State(), others)
    ensures SparesOthers(vendor, old(store.State()), store.State()) && store.locks == old(store.locks)
    ensures !w.lockOk || vendor in old(store.locks) ==>
              !cleaned && err == !w.lockOk && ok == w.lockOk && store.State() == old(store.State())
    ensures w.lockOk && vendor !in old(store.locks) ==>
              Concluded(w, old(store.State()), store.State(), vendor, ok, err, cleaned)
  {
    t := Begun(owner, vendor, Sys(store.State(), others));
    ok, err, cleaned := false, true, false;
    if w.lockOk {
      var locked := store.AcquireScrapeLock(session, vendor);
      if locked {
        ok, err, cleaned, t := UnderLock(store, vendor, w, old(store.State()), t, others, session);
      } else {
        ok, err := true, false;
      }
    }
  }
}
