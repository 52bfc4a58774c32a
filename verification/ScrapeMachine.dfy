/** Scrape processes interleaving over one database (cmd/server/main.go,
    runOneScrape). Every event is one statement or one local decision. */
module ScrapeMachine {
  import opened Catalog
  import opened BatchUpsert
  import opened ScrapeStore

  /** A batch inside the product handler; `written` products are upserted. The
      fan-out runs handlers concurrently, so a run can have many open calls, each
      named after the task that made it. */
  datatype Call = Call(products: seq<Product>, written: nat)

  datatype Phase =
    | Locked | Clocked
    | Scraping | Judging | Counting | Deleting
    | Finishing | Clearing | Unlocking

  /** One runOneScrape in progress. `delivered` is a history variable: the hashes
      of every batch the scraper has handed to the handler. */
  datatype Proc = Proc(
    vendor: string,
    phase: Phase,
    start: int,
    run: nat,
    calls: map<string, Call>,
    ingested: nat,
    failed: nat,
    errored: bool,
    previous: nat,
    counted: nat,
    outcome: Status,
    recorded: nat,
    deleted: nat,
    delivered: set<string>)

  datatype Sys = Sys(db: Database, procs: map<nat, Proc>)

  datatype Act =
    | ReadClock
    | StartRun
    | Abandon                                   // the clock or the run row could not be had
    | Deliver(call: string, products: seq<Product>)
    | UpsertChunk(call: string)
    | MarkBatch(call: string)                      // MarkSeen, then the product counter
    | HandlerFails(call: string, swallowed: bool)  // a database error inside the handler
    | ServiceFails
    | ScrapeErrors
    | ScrapeReturns
    | ReadPrevious(prior: Option<nat>)          // None: no such row, or the query failed
    | CountSeen
    | CountFails
    | DeleteStale
    | DeleteFails
    | Finish
    | FinishFails
    | Clear
    | ClearFails

  datatype Event =
    | Acquire(pid: nat, vendor: string)
    | Do(pid: nat, act: Act)
    | Unlock(pid: nat)
    | Crash(pid: nat)
    | Elapse(d: nat)
    | Prune(cutoff: int)
    | Reap(cutoff: int)
    | LoseSeen(lost: set<(nat, string)>)        // scrape_seen is UNLOGGED
    | Seed(batch: seq<Product>)                 // the seed command: no lock, no marks

  // ---------------------------------------------------------------- guards of main.go

  predicate SeenSetComplete(seen: nat, ingested: nat) {
    seen > 0 && seen >= ingested / 2
  }

  /** What happens once the scraper has returned without error. */
  function Judge(p: Proc, previous: nat): Proc {
    if p.ingested == 0 then Ended(p, Failed, 0, 0)
    else if p.failed > 0 then Ended(p, Success, p.ingested, 0)
    else if previous > 0 && p.ingested < previous / 2 then Ended(p, Success, p.ingested, 0)
    else p.(phase := Counting, previous := previous)
  }

  function Ended(p: Proc, outcome: Status, recorded: nat, deleted: nat): Proc {
    p.(phase := Finishing, outcome := outcome, recorded := recorded, deleted := deleted)
  }

  // ---------------------------------------------------------------- one process

  function NextWrite(c: Call): seq<Product>
    requires c.written <= |c.products|
  {
    c.products[c.written .. Min(c.written + BATCH_SIZE, |c.products|)]
  }

  ghost predicate CanAct(db: Database, p: Proc, act: Act) {
    match act
    case ReadClock => p.phase.Locked?
    case StartRun => p.phase.Clocked?
    case Abandon => p.phase.Locked? || p.phase.Clocked?
    case Deliver(call, products) =>
      p.phase.Scraping? && call !in p.calls && |products| > 0
    case UpsertChunk(call) =>
      p.phase.Scraping? && call in p.calls && p.calls[call].written < |p.calls[call].products|
    case MarkBatch(call) =>
      p.phase.Scraping? && call in p.calls && p.calls[call].written == |p.calls[call].products|
    case HandlerFails(call, _) => p.phase.Scraping? && call in p.calls
    case ServiceFails => p.phase.Scraping?
    case ScrapeErrors => p.phase.Scraping?
    case ScrapeReturns => p.phase.Scraping? && p.calls == map[]
    case ReadPrevious(prior) =>
      p.phase.Judging? && (prior.Some? ==> IsLatestSuccess(db.runs, p.vendor, prior.value))
    case CountSeen => p.phase.Counting?
    case CountFails => p.phase.Counting?
    case DeleteStale => p.phase.Deleting?
    case DeleteFails => p.phase.Deleting?
    case Finish => p.phase.Finishing?
    case FinishFails => p.phase.Finishing?
    case Clear => p.phase.Clearing?
    case ClearFails => p.phase.Clearing?
  }

  function DbAfter(design: Design, db: Database, p: Proc, act: Act): Database
    requires act.UpsertChunk? || act.MarkBatch? ==>
               act.call in p.calls && p.calls[act.call].written <= |p.calls[act.call].products|
  {
    match act
    case ReadClock => Tick(db)
    case StartRun => StartScrapeRun(db, p.vendor, p.start)
    case UpsertChunk(call) => UpsertBatchRows(design, db, NextWrite(p.calls[call]))
    case MarkBatch(call) => MarkSeen(db, p.run, p.calls[call].products)
    case DeleteStale => DeleteStaleProducts(design, db, p.vendor, p.run, p.start)
    case Finish => FinishScrapeRun(db, p.run, p.outcome, p.recorded, p.deleted)
    case Clear => ClearSeen(db, p.run)
    case _ => db
  }

  ghost function ProcAfter(design: Design, db: Database, p: Proc, act: Act): Proc
    requires CanAct(db, p, act)
  {
    match act
    case ReadClock => p.(phase := Clocked, start := db.clock + 1)
    case StartRun => p.(phase := Scraping, run := db.nextRun)
    case Abandon => p.(phase := Unlocking)
    case Deliver(call, products) =>
      p.(calls := p.calls[call := Call(products, 0)], delivered := p.delivered + Hashes(products))
    case UpsertChunk(call) =>
      var c := p.calls[call];
      p.(calls := p.calls[call := c.(written := c.written + |NextWrite(c)|)])
    case MarkBatch(call) =>
      p.(calls := p.calls - {call}, ingested := p.ingested + |p.calls[call].products|)
    case HandlerFails(call, swallowed) =>
      var p := p.(calls := p.calls - {call});
      if swallowed then p.(failed := p.failed + 1) else p.(errored := true)
    case ServiceFails => p.(failed := p.failed + 1)
    case ScrapeErrors => p.(errored := true)
    case ScrapeReturns =>
      if p.errored then Ended(p, Failed, p.ingested, 0) else p.(phase := Judging)
    case ReadPrevious(prior) =>
      Judge(p, if prior.Some? then db.runs[prior.value].products else 0)
    case CountSeen =>
      var seen := |SeenBy(db.seen, p.run)|;
      if SeenSetComplete(seen, p.ingested) then p.(phase := Deleting, counted := seen)
      else Ended(p, Success, p.ingested, 0)
    case CountFails => Ended(p, Success, p.ingested, 0)
    case DeleteStale =>
      Ended(p, Success, p.ingested, |StaleHashes(design, db, p.vendor, p.run, p.start)|)
    case DeleteFails => Ended(p, Success, p.ingested, 0)
    case Finish => p.(phase := Clearing)
    case FinishFails => p.(phase := Clearing)
    case Clear => p.(phase := Unlocking)
    case ClearFails => p.(phase := Unlocking)
  }

  // ---------------------------------------------------------------- the system

  function NewProc(vendor: string): Proc {
    Proc(vendor, Locked, 0, 0, map[], 0, 0, false, 0, 0, Running, 0, 0, {})
  }

  ghost predicate Enabled(s: Sys, e: Event) {
    match e
    case Acquire(pid, _) => pid !in s.procs
    case Do(pid, act) => pid in s.procs && CanAct(s.db, s.procs[pid], act)
    case Unlock(pid) => pid in s.procs && s.procs[pid].phase.Unlocking?
    case Crash(pid) => pid in s.procs
    case _ => true
  }

  /** A session that ends gives up its lock. */
  function Exit(s: Sys, pid: nat): Sys
    requires pid in s.procs
  {
    Sys(s.db.(locks := s.db.locks - {s.procs[pid].vendor}), s.procs - {pid})
  }

  ghost function Step(design: Design, s: Sys, e: Event): Sys
    requires Enabled(s, e)
  {
    match e
    case Acquire(pid, vendor) =>
      if vendor in s.db.locks then s
      else Sys(s.db.(locks := s.db.locks[vendor := pid]), s.procs[pid := NewProc(vendor)])
    case Do(pid, act) =>
      var p := s.procs[pid];
      Sys(DbAfter(design, s.db, p, act), s.procs[pid := ProcAfter(design, s.db, p, act)])
    case Unlock(pid) => Exit(s, pid)
    case Crash(pid) => Exit(s, pid)
    case Elapse(d) => s.(db := s.db.(clock := s.db.clock + d))
    case Prune(cutoff) => s.(db := PruneScrapeRuns(s.db, cutoff))
    case Reap(cutoff) => s.(db := ReapStaleScrapeRuns(s.db, cutoff))
    case LoseSeen(lost) => s.(db := s.db.(seen := s.db.seen - lost))
    case Seed(batch) => s.(db := UpsertBatchRows(design, s.db, batch))
  }

  /** A database with products and nothing else going on. */
  function Boot(products: Table, clock: int): Sys {
    Sys(Database(products, map[], {}, map[], 1, clock), map[])
  }

  ghost predicate IsHistory(design: Design, s: Sys, events: seq<Event>)
    decreases |events|
  {
    events == [] || (Enabled(s, events[0]) && IsHistory(design, Step(design, s, events[0]), events[1..]))
  }

  ghost function After(design: Design, s: Sys, events: seq<Event>): Sys
    requires IsHistory(design, s, events)
    decreases |events|
  {
    if events == [] then s else After(design, Step(design, s, events[0]), events[1..])
  }

  lemma HistoryChains(design: Design, s: Sys, a: seq<Event>, b: seq<Event>)
    requires IsHistory(design, s, a) && IsHistory(design, After(design, s, a), b)
    ensures IsHistory(design, s, a + b) && After(design, s, a + b) == After(design, After(design, s, a), b)
    decreases |a|
  {
    if a == [] {
      assert a + b == b;
    } else {
      assert (a + b)[1..] == a[1..] + b;
      HistoryChains(design, Step(design, s, a[0]), a[1..], b);
    }
  }
}
