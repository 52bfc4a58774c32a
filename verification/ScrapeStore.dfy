/** The tables a scrape works on and the statements it runs against them
    (internal/db/db.go, internal/db/queries.go, internal/db/schema.sql). */
module ScrapeStore {
  import opened Catalog
  import opened BatchUpsert

  datatype Status = Running | Success | Failed

  datatype Run = Run(
    vendor: string,
    startedAt: int,
    finishedAt: Option<int>,
    status: Status,
    products: nat,
    deleted: nat)

  /** `seen` is scrape_seen (primary key (run_id, product_hash)); `locks` maps a
      vendor to the session holding its advisory lock; `clock` is the database
      clock, which every timestamping statement advances. */
  datatype Database = Database(
    products: Table,
    runs: map<nat, Run>,
    seen: set<(nat, string)>,
    locks: map<string, nat>,
    nextRun: nat,
    clock: int)

  function VendorRows(products: Table, vendor: string): Table {
    map h | h in products && products[h].product.vendor == vendor :: products[h]
  }

  function VendorHashes(products: Table, vendor: string): set<string> {
    VendorRows(products, vendor).Keys
  }

  function SeenBy(seen: set<(nat, string)>, run: nat): set<string> {
    set e | e in seen && e.0 == run :: e.1
  }

  lemma MarksOf(seen: set<(nat, string)>, run: nat)
    ensures forall h :: h in SeenBy(seen, run) <==> (run, h) in seen
  {
    forall h ensures h in SeenBy(seen, run) <==> (run, h) in seen {
      if (run, h) in seen {
        assert (run, h).0 == run && (run, h).1 == h;
      }
    }
  }

  lemma VendorHashesAre(products: Table, vendor: string)
    ensures forall h :: h in VendorHashes(products, vendor) <==> h in products && products[h].product.vendor == vendor
    ensures forall h :: h in VendorHashes(products, vendor) ==> VendorRows(products, vendor)[h] == products[h]
  {
  }

  function Tick(db: Database): Database {
    db.(clock := db.clock + 1)
  }

  /** BIGSERIAL ids are never reused. */
  function StartScrapeRun(db: Database, vendor: string, startedAt: int): Database {
    Tick(db).(runs := db.runs[db.nextRun := Run(vendor, startedAt, None, Running, 0, 0)],
              nextRun := db.nextRun + 1)
  }

  /** An unconditional update by id: a reaped run can still become a success. */
  function FinishScrapeRun(db: Database, id: nat, status: Status, products: nat, deleted: nat): Database {
    var db := Tick(db);
    if id !in db.runs then db
    else db.(runs := db.runs[id := db.runs[id].(finishedAt := Some(db.clock), status := status,
                                                products := products, deleted := deleted)])
  }

  function PruneScrapeRuns(db: Database, cutoff: int): Database {
    db.(runs := map r | r in db.runs && !(db.runs[r].finishedAt.Some? && db.runs[r].finishedAt.value < cutoff)
                :: db.runs[r])
  }

  predicate Reapable(run: Run, cutoff: int) {
    run.status.Running? && run.startedAt < cutoff
  }

  function ReapStaleScrapeRuns(db: Database, cutoff: int): Database {
    var db := Tick(db);
    db.(runs := map r | r in db.runs ::
          if Reapable(db.runs[r], cutoff) then db.runs[r].(status := Failed, finishedAt := Some(db.clock))
          else db.runs[r])
  }

  function UpsertBatchRows(design: Design, db: Database, batch: seq<Product>): Database {
    var db := Tick(db);
    db.(products := UpsertStatement(design, db.products, batch, db.clock))
  }

  function MarkSeen(db: Database, id: nat, products: seq<Product>): Database {
    if id <= 0 || |products| == 0 then db
    else db.(seen := db.seen + set p | p in products :: (id, p.hash))
  }

  predicate IsRunning(db: Database, id: nat) {
    id in db.runs && db.runs[id].status.Running?
  }

  function ClearSeen(db: Database, id: nat): Database {
    db.(seen := set e | e in db.seen && e.0 != id && IsRunning(db, e.0))
  }

  /** Rows the cleanup of run `id` removes. The touch-every-row design has no
      seen-set, so there the timestamp alone decides. */
  function StaleHashes(design: Design, db: Database, vendor: string, id: nat, before: int): set<string> {
    set h | h in db.products
            && db.products[h].product.vendor == vendor
            && db.products[h].updatedAt < before
            && (design.TouchAll? || (id, h) !in db.seen)
  }

  function DeleteStaleProducts(design: Design, db: Database, vendor: string, id: nat, before: int): Database {
    db.(products := db.products - StaleHashes(design, db, vendor, id, before))
  }

  /** `SELECT products ... WHERE vendor AND status='success' ORDER BY finished_at
      DESC LIMIT 1` may answer with any row whose finish time is the latest. */
  ghost predicate IsLatestSuccess(runs: map<nat, Run>, vendor: string, id: nat) {
    && id in runs && Succeeded(runs[id], vendor)
    && forall r :: r in runs && Succeeded(runs[r], vendor) ==> runs[r].finishedAt.value <= runs[id].finishedAt.value
  }

  /** The product count of such a row, 0 when there is none. */
  ghost predicate IsPreviousCount(runs: map<nat, Run>, vendor: string, count: nat) {
    if exists r :: r in runs && Succeeded(runs[r], vendor)
    then exists r :: IsLatestSuccess(runs, vendor, r) && count == runs[r].products
    else count == 0
  }

  predicate Succeeded(run: Run, vendor: string) {
    run.vendor == vendor && run.status.Success? && run.finishedAt.Some?
  }

  /** Said of the rows' own columns: 0 without a finished success of the vendor, and
      otherwise the products of one that finished last. */
  lemma PreviousCountMeans(runs: map<nat, Run>, vendor: string, count: nat)
    requires IsPreviousCount(runs, vendor, count)
    ensures (forall r :: r in runs && runs[r].vendor == vendor ==> !runs[r].status.Success? || runs[r].finishedAt.None?)
            ==> count == 0
    ensures (exists r :: r in runs && runs[r].vendor == vendor && runs[r].status.Success? && runs[r].finishedAt.Some?)
            ==> exists r :: LastSuccess(runs, vendor, r) && runs[r].products == count
  {
    if r :| r in runs && runs[r].vendor == vendor && runs[r].status.Success? && runs[r].finishedAt.Some? {
      assert Succeeded(runs[r], vendor);
      var l :| IsLatestSuccess(runs, vendor, l) && count == runs[l].products;
      LatestSuccessMeans(runs, vendor, l);
    }
  }

  ghost predicate LastSuccess(runs: map<nat, Run>, vendor: string, id: nat) {
    && id in runs && runs[id].vendor == vendor && runs[id].status == Success && runs[id].finishedAt.Some?
    && forall r :: r in runs && runs[r].vendor == vendor && runs[r].status == Success && runs[r].finishedAt.Some? ==>
         runs[r].finishedAt.value <= runs[id].finishedAt.value
  }

  lemma LatestSuccessMeans(runs: map<nat, Run>, vendor: string, id: nat)
    ensures IsLatestSuccess(runs, vendor, id) <==> LastSuccess(runs, vendor, id)
  {
    forall r | r in runs
      ensures Succeeded(runs[r], vendor)
              <==> runs[r].vendor == vendor && runs[r].status == Success && runs[r].finishedAt.Some?
    {
    }
  }

  /** The database as the code drives it: every method is one statement. */
  class Store {
    var products: Table
    var runs: map<nat, Run>
    var seen: set<(nat, string)>
    var locks: map<string, nat>
    var nextRun: nat
    var clock: int

    function State(): Database
      reads this
    {
      Database(products, runs, seen, locks, nextRun, clock)
    }

    constructor (products: Table, clock: int)
      ensures State() == Database(products, map[], {}, map[], 1, clock)
    {
      this.products, this.clock := products, clock;
      runs, seen, locks, nextRun := map[], {}, map[], 1;
    }

    /** SELECT now() */
    method Now() returns (t: int)
      modifies this`clock
      ensures State() == Tick(old(State())) && t == clock
    {
      clock := clock + 1;
      t := clock;
    }

    method PreviousCount(vendor: string) returns (count: nat)
      ensures IsPreviousCount(runs, vendor, count)
      ensures (forall r :: r in runs && runs[r].vendor == vendor ==> runs[r].status != Success) ==> count == 0
      ensures (exists r ::
                 r in runs && runs[r].vendor == vendor && runs[r].status == Success && runs[r].finishedAt.Some?)
              ==> exists r :: LastSuccess(runs, vendor, r) && runs[r].products == count
    {
      count := 0;
      var left := runs.Keys;
      var best: Option<nat> := None;
      while left != {}
        invariant left <= runs.Keys
        invariant best.Some? ==> best.value in runs && Succeeded(runs[best.value], vendor)
        invariant forall r :: r in runs && r !in left && Succeeded(runs[r], vendor) ==>
                    best.Some? && runs[r].finishedAt.value <= runs[best.value].finishedAt.value
        decreases left
      {
        var r :| r in left;
        left := left - {r};
        if Succeeded(runs[r], vendor) && (best.None? || runs[r].finishedAt.value > runs[best.value].finishedAt.value) {
          best := Some(r);
        }
      }
      if best.Some? {
        count := runs[best.value].products;
        assert IsLatestSuccess(runs, vendor, best.value);
      }
      PreviousCountMeans(runs, vendor, count);
    }

    method CountSeen(id: nat) returns (count: nat)
      ensures count == |SeenBy(seen, id)| && forall h :: h in SeenBy(seen, id) <==> (id, h) in seen
    {
      MarksOf(seen, id);
      count := |SeenBy(seen, id)|;
    }

    method AcquireScrapeLock(session: nat, vendor: string) returns (locked: bool)
      modifies this`locks
      ensures locked <==> vendor !in old(locks)
      ensures locks == if locked then old(locks)[vendor := session] else old(locks)
    {
      locked := vendor !in locks;
      if locked {
        locks := locks[vendor := session];
      }
    }

    method ReleaseScrapeLock(vendor: string)
      modifies this`locks
      ensures locks == old(locks) - {vendor}
    {
      locks := locks - {vendor};
    }

    method BeginRun(vendor: string, startedAt: int) returns (id: nat)
      modifies this
      ensures id == old(nextRun) && nextRun == id + 1 && clock > old(clock)
      ensures runs == old(runs)[id := Run(vendor, startedAt, None, Running, 0, 0)]
      ensures State() == StartScrapeRun(old(State()), vendor, startedAt)
    {
      clock := clock + 1;
      id := nextRun;
      runs := runs[id := Run(vendor, startedAt, None, Running, 0, 0)];
      nextRun := nextRun + 1;
    }

    method FinishRun(id: nat, status: Status, count: nat, deleted: nat)
      modifies this
      ensures runs.Keys == old(runs).Keys && forall r :: r in runs && r != id ==> runs[r] == old(runs[r])
      ensures id in runs ==> runs[id].vendor == old(runs[id].vendor) && runs[id].startedAt == old(runs[id].startedAt)
                             && runs[id].status == status && runs[id].products == count && runs[id].deleted == deleted
                             && runs[id].finishedAt == Some(clock) && clock > old(clock)
      ensures State() == FinishScrapeRun(old(State()), id, status, count, deleted)
    {
      clock := clock + 1;
      if id in runs {
        var r := runs[id];
        runs := runs[id := Run(r.vendor, r.startedAt, Some(clock), status, count, deleted)];
      }
    }

    /** A retention of zero (or less) means "never prune". */
    method Prune(retain: int, now: int) returns (removed: nat)
      modifies this`runs
      ensures retain <= 0 ==> removed == 0 && State() == old(State())
      ensures retain > 0 ==> State() == PruneScrapeRuns(old(State()), now - retain)
      ensures retain > 0 ==>
                forall r :: r in runs <==>
                  r in old(runs) && (old(runs[r]).finishedAt.None? || old(runs[r]).finishedAt.value >= now - retain)
      ensures forall r :: r in runs ==> runs[r] == old(runs[r])
      ensures removed == |old(runs).Keys - runs.Keys|
    {
      if retain <= 0 {
        return 0;
      }
      var cutoff := now - retain;
      var gone := set r | r in runs && runs[r].finishedAt.Some? && runs[r].finishedAt.value < cutoff;
      ghost var before := runs;
      runs := runs - gone;
      removed := |gone|;
      assert before.Keys - runs.Keys == gone;
    }

    method ReapStale(cutoff: int)
      modifies this
      ensures State() == ReapStaleScrapeRuns(old(State()), cutoff)
      ensures runs.Keys == old(runs).Keys && clock > old(clock)
      ensures forall r :: r in runs ==>
                if old(runs[r]).status == Running && old(runs[r]).startedAt < cutoff
                then runs[r] == old(runs[r]).(status := Failed, finishedAt := Some(clock))
                else runs[r] == old(runs[r])
    {
      clock := clock + 1;
      var stale := set r | r in runs && Reapable(runs[r], cutoff);
      runs := runs + map r | r in stale :: runs[r].(status := Failed, finishedAt := Some(clock));
    }

    /** Executes the upsert statement. The database rejects a statement that
        would touch a row twice, and may fail for reasons of its own. */
    method Exec(groups: seq<seq<nat>>, args: seq<Column>, batch: seq<Product>, healthy: bool)
        returns (ok: bool)
      requires IsInsertOf(groups, args, batch)
      modifies this`products, this`clock
      ensures ok == (healthy && Distinct(batch))
      ensures ok ==> clock == old(clock) + 1
                     && products == UpsertStatement(ChangedOnly, old(products), batch, clock)
      ensures !ok ==> products == old(products) && clock == old(clock)
    {
      ok := healthy && Distinct(batch);
      if ok {
        clock := clock + 1;
        products := UpsertStatement(ChangedOnly, products, batch, clock);
      }
    }

    method UpsertBatch(batch: seq<Product>, healthy: bool) returns (ok: bool)
      modifies this`products, this`clock
      ensures |batch| == 0 ==> ok && products == old(products) && clock == old(clock)
      ensures 0 < |batch| <= BATCH_SIZE ==> ok == healthy
      ensures |batch| > 0 && ok ==>
                && clock == old(clock) + 1
                && products == UpsertStatement(ChangedOnly, old(products), batch, clock)
      ensures !ok ==> products == old(products) && clock == old(clock)
    {
      if |batch| == 0 {
        return true;
      }
      var deduped := Deduplicate(batch);
      if |deduped| > MAX_BATCH_SIZE {
        return false;
      }
      var groups, args := BuildInsert(deduped);
      ok := Exec(groups, args, deduped, healthy);
      SameStatement(old(products), batch, deduped, old(clock) + 1);
    }

    /** Chunk number `done`, on top of the chunks before it. */
    method UpsertNext(chunk: seq<Product>, healthy: bool,
                      ghost table: Table, ghost chunks: seq<seq<Product>>, ghost done: nat, ghost now: int)
        returns (ok: bool)
      requires done < |chunks| && chunk == chunks[done] && 0 < |chunk| <= BATCH_SIZE
      requires clock == now + done && products == UpsertChunks(ChangedOnly, table, chunks[..done], now)
      modifies this`products, this`clock
      ensures ok == healthy
      ensures ok ==> clock == now + done + 1 && products == UpsertChunks(ChangedOnly, table, chunks[..done + 1], now)
      ensures !ok ==> clock == old(clock) && products == old(products)
    {
      OneMoreChunk(table, chunks, now, done);
      ok := UpsertBatch(chunk, healthy);
    }

    /** Writes consecutive chunks until statement number `failAt` fails, if it is
        reached; the first `done` chunks are stored. */
    method UpsertProducts(batch: seq<Product>, failAt: nat) returns (ok: bool, done: nat)
      modifies this`products, this`clock
      ensures done == Min(failAt, |Chunks(batch)|)
      ensures ok <==> done == |Chunks(batch)|
      ensures clock == old(clock) + done
      ensures products == UpsertChunks(ChangedOnly, old(products), Chunks(batch)[..done], old(clock))
    {
      var total := |batch|;
      ghost var chunks := Chunks(batch);
      done := 0;
      var i := 0;
      while i < total
        invariant 0 <= i && done <= failAt && AtChunk(batch, i, done)
        invariant clock == old(clock) + done
        invariant products == UpsertChunks(ChangedOnly, old(products), chunks[..done], old(clock))
      {
        var end := i + BATCH_SIZE;
        if end > total {
          end := total;
        }
        NextChunk(batch, i, done);
        var written := UpsertNext(batch[i..end], done != failAt, old(products), chunks, done, old(clock));
        if !written {
          return false, done;
        }
        done := done + 1;
        i := i + BATCH_SIZE;
      }
      assert chunks[..done] == chunks;
      ok := true;
    }

    method RecordSeen(id: nat, batch: seq<Product>)
      modifies this`seen
      ensures State() == MarkSeen(old(State()), id, batch)
      ensures forall r, h :: (r, h) in seen <==>
                (r, h) in old(seen) || (r == id > 0 && exists i :: 0 <= i < |batch| && batch[i].hash == h)
    {
      if id <= 0 || |batch| == 0 {
        return;
      }
      seen := seen + set p | p in batch :: (id, p.hash);
    }

    method DropSeen(id: nat)
      modifies this`seen
      ensures State() == ClearSeen(old(State()), id)
      ensures forall r, h :: (r, h) in seen <==>
                (r, h) in old(seen) && r != id && r in runs && runs[r].status == Running
    {
      seen := set e | e in seen && !(e.0 == id || !(e.0 in runs && runs[e.0].status.Running?));
    }

    method DeleteStale(vendor: string, id: nat, before: int) returns (deleted: nat)
      modifies this`products
      ensures State() == DeleteStaleProducts(ChangedOnly, old(State()), vendor, id, before)
      ensures forall h :: h in products <==>
                h in old(products) && !(old(products[h]).product.vendor == vendor
                                        && old(products[h]).updatedAt < before && (id, h) !in seen)
      ensures forall h :: h in products ==> products[h] == old(products[h])
      ensures deleted == |StaleHashes(ChangedOnly, old(State()), vendor, id, before)|
      ensures deleted == |old(products).Keys - products.Keys|
    {
      var gone := set h | h in products
                          && products[h].product.vendor == vendor && products[h].updatedAt < before
                          && (id, h) !in seen;
      assert gone == StaleHashes(ChangedOnly, State(), vendor, id, before);
      ghost var was := products;
      products := products - gone;
      deleted := |gone|;
      assert was.Keys - products.Keys == gone;
    }
  }
}
