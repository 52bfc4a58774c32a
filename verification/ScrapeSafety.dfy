/** Every step of the protocol keeps the invariants. */
module ScrapeSafety {
  import opened Catalog
  import opened BatchUpsert
  import opened ScrapeStore
  import opened ScrapeMachine
  import opened ScrapeInvariants

  // ---------------------------------------------------------------- bystanders

  /** What a process that is not acting must not lose. */
  ghost predicate Undisturbed(db: Database, db': Database, q: Proc) {
    && VendorHashes(db.products, q.vendor) <= VendorHashes(db'.products, q.vendor)
    && SeenBy(db'.seen, q.run) <= SeenBy(db.seen, q.run)
    && (q.vendor in db.locks ==> q.vendor in db'.locks && db'.locks[q.vendor] == db.locks[q.vendor])
    && db.clock <= db'.clock && db.nextRun <= db'.nextRun
  }

  lemma ProcOkFrame(owner: string -> string, db: Database, db': Database, pid: nat, q: Proc)
    requires ProcOk(owner, db, pid, q) && Undisturbed(db, db', q)
    ensures ProcOk(owner, db', pid, q)
  {
  }

  ghost predicate Untouched(db: Database, db': Database, q: Proc) {
    && VendorRows(db'.products, q.vendor) == VendorRows(db.products, q.vendor)
    && (Working(q.phase) ==>
          SeenBy(db'.seen, q.run) == SeenBy(db.seen, q.run) && (IsRunning(db, q.run) ==> IsRunning(db', q.run)))
  }

  lemma FreshOfRows(was: Table, now: Table, vendor: string, start: int)
    requires VendorRows(now, vendor) == VendorRows(was, vendor)
    ensures Fresh(now, vendor, start) == Fresh(was, vendor, start)
  {
    forall h ensures h in Fresh(now, vendor, start) <==> h in Fresh(was, vendor, start) {
      assert h in VendorRows(now, vendor) <==> h in VendorRows(was, vendor);
      assert h in VendorRows(now, vendor) ==> now[h] == VendorRows(now, vendor)[h] == was[h];
    }
  }

  lemma SyncedFrame(design: Design, db: Database, db': Database, q: Proc)
    requires Synced(design, db, q) && Untouched(db, db', q)
    ensures Synced(design, db', q)
  {
    FreshOfRows(db.products, db'.products, q.vendor, q.start);
  }

  /** A process acting for one vendor leaves every other vendor's process alone. */
  lemma ActSparesOthers(owner: string -> string, design: Design, db: Database, pid: nat, p: Proc, act: Act, q: Proc)
    requires TableOk(owner, db.products, db.clock) && ProcOk(owner, db, pid, p) && CanAct(db, p, act)
    requires q.vendor != p.vendor && q.run < db.nextRun
    requires HasRun(p.phase) ==> q.run != p.run
    ensures Undisturbed(db, DbAfter(design, db, p, act), q)
    ensures (Working(q.phase) ==> IsRunning(db, q.run)) ==> Untouched(db, DbAfter(design, db, p, act), q)
  {
    match act
    case UpsertChunk(call) =>
      WriteSparesOthers(owner, design, db, p, call, q);
    case MarkBatch(call) =>
      MarkGrows(db, p.run, p.calls[call].products, q.run);
    case DeleteStale =>
      DeleteSparesOthers(design, db, p, q.vendor);
    case Clear =>
      ClearKeepsRunning(db, p.run, q.run);
    case _ => LocalActsSpareOthers(owner, design, db, p, act, q);
  }

  lemma LocalActsSpareOthers(owner: string -> string, design: Design, db: Database, p: Proc, act: Act, q: Proc)
    requires CanAct(db, p, act) && q.run < db.nextRun && (HasRun(p.phase) ==> q.run != p.run)
    requires !act.UpsertChunk? && !act.MarkBatch? && !act.DeleteStale? && !act.Clear?
    ensures Undisturbed(db, DbAfter(design, db, p, act), q)
    ensures (Working(q.phase) ==> IsRunning(db, q.run)) ==> Untouched(db, DbAfter(design, db, p, act), q)
  {
    assert DbAfter(design, db, p, act).products == db.products;
    assert DbAfter(design, db, p, act).seen == db.seen;
  }

  lemma WriteSparesOthers(owner: string -> string, design: Design, db: Database, p: Proc, call: string, q: Proc)
    requires TableOk(owner, db.products, db.clock) && CanAct(db, p, UpsertChunk(call))
    requires Owned(owner, p.vendor, p.calls[call].products) && q.vendor != p.vendor
    ensures var db' := UpsertBatchRows(design, db, NextWrite(p.calls[call]));
            && VendorRows(db'.products, q.vendor) == VendorRows(db.products, q.vendor)
            && VendorHashes(db.products, q.vendor) <= VendorHashes(db'.products, q.vendor)
  {
    var batch := NextWrite(p.calls[call]);
    assert forall x :: x in batch ==> x in p.calls[call].products;
    UpsertOtherVendor(owner, design, db, batch, q.vendor);
  }

  lemma DeleteSparesOthers(design: Design, db: Database, p: Proc, vendor: string)
    requires vendor != p.vendor
    ensures VendorRows(DeleteStaleProducts(design, db, p.vendor, p.run, p.start).products, vendor)
         == VendorRows(db.products, vendor)
  {
  }

  lemma ClearKeepsRunning(db: Database, id: nat, other: nat)
    ensures SeenBy(ClearSeen(db, id).seen, other) <= SeenBy(db.seen, other)
    ensures other != id && IsRunning(db, other) ==> SeenBy(ClearSeen(db, id).seen, other) == SeenBy(db.seen, other)
  {
    var db' := ClearSeen(db, id);
    if other != id && IsRunning(db, other) {
      forall h | h in SeenBy(db.seen, other) ensures h in SeenBy(db'.seen, other) {
        assert (other, h) in db.seen;
        assert (other, h) in db'.seen;
      }
    }
  }

  // ---------------------------------------------------------------- the acting process

  lemma ActKeepsTables(owner: string -> string, design: Design, db: Database, pid: nat, p: Proc, act: Act)
    requires TableOk(owner, db.products, db.clock) && RunsOk(db) && ProcOk(owner, db, pid, p) && CanAct(db, p, act)
    ensures var db' := DbAfter(design, db, p, act); TableOk(owner, db'.products, db'.clock) && RunsOk(db')
  {
    match act
    case UpsertChunk(call) =>
      var batch := NextWrite(p.calls[call]);
      assert forall x :: x in batch ==> x in p.calls[call].products;
      UpsertKeepsTable(owner, design, db, batch);
    case _ =>
  }

  lemma NoMarksYet(db: Database, run: nat)
    requires RunsOk(db) && run >= db.nextRun
    ensures SeenBy(db.seen, run) == {}
  {
    assert forall e :: e in db.seen ==> e.0 != run;
  }

  lemma ActKeepsProc(owner: string -> string, design: Design, db: Database, pid: nat, p: Proc, act: Act)
    requires TableOk(owner, db.products, db.clock) && RunsOk(db) && ProcOk(owner, db, pid, p) && CanAct(db, p, act)
    requires act.Deliver? ==> Owned(owner, p.vendor, act.products)
    ensures ProcOk(owner, DbAfter(design, db, p, act), pid, ProcAfter(design, db, p, act))
  {
    match act
    case Deliver(call, products) => DeliverKeepsProc(owner, design, db, pid, p, call, products);
    case UpsertChunk(call) =>
      WriteUnfolds(design, db, p, call);
      WriteKeepsProc(owner, design, db, pid, p, call);
    case MarkBatch(call) => MarkKeepsProc(owner, design, db, pid, p, call);
    case HandlerFails(call, swallowed) => FailureKeepsProc(owner, design, db, pid, p, call, swallowed);
    case ReadClock => BookkeepingKeepsProc(owner, design, db, pid, p, act);
    case StartRun => BookkeepingKeepsProc(owner, design, db, pid, p, act);
    case _ => DecisionKeepsProc(owner, design, db, pid, p, act);
  }

  lemma DeliverKeepsProc(owner: string -> string, design: Design, db: Database, pid: nat, p: Proc, call: string,
                         products: seq<Product>)
    requires ProcOk(owner, db, pid, p) && CanAct(db, p, Deliver(call, products)) && Owned(owner, p.vendor, products)
    ensures ProcOk(owner, db, pid, ProcAfter(design, db, p, Deliver(call, products)))
  {
    CallOpens(p.calls, call, products);
  }

  lemma FailureKeepsProc(owner: string -> string, design: Design, db: Database, pid: nat, p: Proc, call: string,
                         swallowed: bool)
    requires ProcOk(owner, db, pid, p) && CanAct(db, p, HandlerFails(call, swallowed))
    ensures ProcOk(owner, db, pid, ProcAfter(design, db, p, HandlerFails(call, swallowed)))
  {
    CallCloses(p.calls, call);
  }

  lemma BookkeepingKeepsProc(owner: string -> string, design: Design, db: Database, pid: nat, p: Proc, act: Act)
    requires RunsOk(db) && ProcOk(owner, db, pid, p) && CanAct(db, p, act)
    requires act.ReadClock? || act.StartRun?
    ensures ProcOk(owner, DbAfter(design, db, p, act), pid, ProcAfter(design, db, p, act))
  {
    NoMarksYet(db, db.nextRun);
  }

  predicate LocalAct(act: Act) {
    act.ServiceFails? || act.ScrapeErrors? || act.ScrapeReturns? || act.ReadPrevious? || act.CountSeen?
  }

  lemma DecisionKeepsProc(owner: string -> string, design: Design, db: Database, pid: nat, p: Proc, act: Act)
    requires RunsOk(db) && ProcOk(owner, db, pid, p) && CanAct(db, p, act)
    requires !act.ReadClock? && !act.StartRun? && !act.Deliver? && !act.UpsertChunk? && !act.MarkBatch?
             && !act.HandlerFails?
    ensures ProcOk(owner, DbAfter(design, db, p, act), pid, ProcAfter(design, db, p, act))
  {
    if LocalAct(act) {
      LocalActKeepsProc(owner, design, db, pid, p, act);
    } else {
      ClosingActKeepsProc(owner, design, db, pid, p, act);
    }
  }

  /** What a decision leaves alone, and what it never forgets. */
  ghost predicate Carries(p: Proc, p': Proc) {
    && p'.vendor == p.vendor && p'.start == p.start && p'.run == p.run
    && p'.calls == p.calls && p'.delivered == p.delivered && (Clean(p') ==> Clean(p))
  }

  ghost predicate PhaseOk(p: Proc) {
    && (!p.phase.Scraping? ==> p.calls == map[])
    && (p.phase.Judging? ==> !p.errored)
    && (p.phase.Counting? || p.phase.Deleting? ==>
          Clean(p) && p.ingested > 0 && (p.previous > 0 ==> p.ingested >= p.previous / 2))
    && (p.phase.Deleting? ==> SeenSetComplete(p.counted, p.ingested))
    && (p.phase.Finishing? ==> !p.outcome.Running? && (p.outcome.Success? ==> p.recorded > 0))
  }

  lemma StillOk(owner: string -> string, db: Database, pid: nat, p: Proc, p': Proc)
    requires ProcOk(owner, db, pid, p) && Working(p.phase) && Carries(p, p') && PhaseOk(p')
    requires Working(p'.phase) || p'.phase.Finishing?
    ensures ProcOk(owner, db, pid, p')
  {
  }

  lemma LocalActKeepsProc(owner: string -> string, design: Design, db: Database, pid: nat, p: Proc, act: Act)
    requires ProcOk(owner, db, pid, p) && CanAct(db, p, act) && LocalAct(act)
    ensures ProcOk(owner, DbAfter(design, db, p, act), pid, ProcAfter(design, db, p, act))
  {
    LocalActDecides(design, db, p, act);
    StillOk(owner, db, pid, p, ProcAfter(design, db, p, act));
  }

  lemma LocalActDecides(design: Design, db: Database, p: Proc, act: Act)
    requires CanAct(db, p, act) && LocalAct(act) && PhaseOk(p)
    ensures DbAfter(design, db, p, act) == db
    ensures var p' := ProcAfter(design, db, p, act);
            Working(p.phase) && (Working(p'.phase) || p'.phase.Finishing?) && Carries(p, p') && PhaseOk(p')
  {
  }

  lemma ClosingActKeepsProc(owner: string -> string, design: Design, db: Database, pid: nat, p: Proc, act: Act)
    requires RunsOk(db) && ProcOk(owner, db, pid, p) && CanAct(db, p, act) && !LocalAct(act)
    requires !act.ReadClock? && !act.StartRun? && !act.Deliver? && !act.UpsertChunk? && !act.MarkBatch?
             && !act.HandlerFails?
    ensures ProcOk(owner, DbAfter(design, db, p, act), pid, ProcAfter(design, db, p, act))
  {
    assert !Working(ProcAfter(design, db, p, act).phase);
  }

  function WriteCalls(p: Proc, call: string): map<string, Call>
    requires call in p.calls && p.calls[call].written <= |p.calls[call].products|
  {
    p.calls[call := p.calls[call].(written := p.calls[call].written + |NextWrite(p.calls[call])|)]
  }

  /** One chunk: what it does to the vendor's rows and to the open calls. */
  lemma WriteEffect(owner: string -> string, design: Design, db: Database, pid: nat, p: Proc, call: string)
    requires TableOk(owner, db.products, db.clock) && ProcOk(owner, db, pid, p) && CanAct(db, p, UpsertChunk(call))
    ensures var hashes := Hashes(NextWrite(p.calls[call]));
            var calls := WriteCalls(p, call);
            var now := UpsertBatchRows(design, db, NextWrite(p.calls[call])).products;
            && WrittenBy(calls) == WrittenBy(p.calls) + hashes && Sent(calls) == Sent(p.calls)
            && VendorHashes(now, p.vendor) == VendorHashes(db.products, p.vendor) + hashes
            && Fresh(db.products, p.vendor, p.start) <= Fresh(now, p.vendor, p.start)
            && Fresh(now, p.vendor, p.start) <= Fresh(db.products, p.vendor, p.start) + hashes
            && (design.TouchAll? ==> hashes <= Fresh(now, p.vendor, p.start))
  {
    CallWrites(p.calls, call);
    RowsWritten(owner, design, db, pid, p, call);
  }

  lemma RowsWritten(owner: string -> string, design: Design, db: Database, pid: nat, p: Proc, call: string)
    requires TableOk(owner, db.products, db.clock) && ProcOk(owner, db, pid, p) && CanAct(db, p, UpsertChunk(call))
    ensures var hashes := Hashes(NextWrite(p.calls[call]));
            var was, now := db.products, UpsertBatchRows(design, db, NextWrite(p.calls[call])).products;
            && VendorHashes(now, p.vendor) == VendorHashes(was, p.vendor) + hashes
            && Fresh(was, p.vendor, p.start) <= Fresh(now, p.vendor, p.start)
            && Fresh(now, p.vendor, p.start) <= Fresh(was, p.vendor, p.start) + hashes
            && (design.TouchAll? ==> hashes <= Fresh(now, p.vendor, p.start))
  {
    var batch := NextWrite(p.calls[call]);
    assert Owned(owner, p.vendor, batch) by {
      assert forall x :: x in batch ==> x in p.calls[call].products;
    }
    UpsertOwnVendor(owner, design, db, batch, p.vendor, p.start);
  }

  lemma WriteUnfolds(design: Design, db: Database, p: Proc, call: string)
    requires CanAct(db, p, UpsertChunk(call))
    ensures DbAfter(design, db, p, UpsertChunk(call)) == UpsertBatchRows(design, db, NextWrite(p.calls[call]))
    ensures ProcAfter(design, db, p, UpsertChunk(call)) == p.(calls := WriteCalls(p, call))
  {
  }

  lemma WriteKeepsProc(owner: string -> string, design: Design, db: Database, pid: nat, p: Proc, call: string)
    requires TableOk(owner, db.products, db.clock) && ProcOk(owner, db, pid, p) && CanAct(db, p, UpsertChunk(call))
    ensures ProcOk(owner, UpsertBatchRows(design, db, NextWrite(p.calls[call])), pid, p.(calls := WriteCalls(p, call)))
  {
    WriteEffect(owner, design, db, pid, p, call);
    ProcGrows(owner, db, UpsertBatchRows(design, db, NextWrite(p.calls[call])), pid, p,
              WriteCalls(p, call), Hashes(NextWrite(p.calls[call])));
  }

  lemma ProcGrows(owner: string -> string, db: Database, db': Database, pid: nat, p: Proc,
                  calls: map<string, Call>, hashes: set<string>)
    requires ProcOk(owner, db, pid, p) && p.phase.Scraping?
    requires db'.seen == db.seen && db'.locks == db.locks && db'.nextRun == db.nextRun && db'.clock >= db.clock
    requires VendorHashes(db'.products, p.vendor) == VendorHashes(db.products, p.vendor) + hashes
    requires WrittenBy(calls) == WrittenBy(p.calls) + hashes && Sent(calls) == Sent(p.calls)
    requires forall c :: c in calls ==>
               c in p.calls && calls[c].products == p.calls[c].products && calls[c].written <= |calls[c].products|
    ensures ProcOk(owner, db', pid, p.(calls := calls))
  {
  }

  lemma MarkKeepsProc(owner: string -> string, design: Design, db: Database, pid: nat, p: Proc, call: string)
    requires ProcOk(owner, db, pid, p) && CanAct(db, p, MarkBatch(call))
    ensures ProcOk(owner, DbAfter(design, db, p, MarkBatch(call)), pid, ProcAfter(design, db, p, MarkBatch(call)))
  {
    CallCloses(p.calls, call);
    MarkGrows(db, p.run, p.calls[call].products, p.run);
  }

  lemma ActKeepsSynced(owner: string -> string, design: Design, db: Database, pid: nat, p: Proc, act: Act)
    requires TableOk(owner, db.products, db.clock) && RunsOk(db) && ProcOk(owner, db, pid, p) && CanAct(db, p, act)
    requires act.Deliver? ==> Owned(owner, p.vendor, act.products)
    requires Synced(design, db, p)
    ensures Synced(design, DbAfter(design, db, p, act), ProcAfter(design, db, p, act))
  {
    match act
    case Deliver(call, products) => CallOpens(p.calls, call, products);
    case UpsertChunk(call) =>
      WriteUnfolds(design, db, p, call);
      WriteKeepsSynced(owner, design, db, pid, p, call);
    case MarkBatch(call) => MarkKeepsSynced(owner, design, db, pid, p, call);
    case HandlerFails(call, _) => CallCloses(p.calls, call);
    case _ => DecisionKeepsSynced(owner, design, db, pid, p, act);
  }

  lemma DecisionKeepsSynced(owner: string -> string, design: Design, db: Database, pid: nat, p: Proc, act: Act)
    requires TableOk(owner, db.products, db.clock) && RunsOk(db) && ProcOk(owner, db, pid, p) && CanAct(db, p, act)
    requires !act.Deliver? && !act.UpsertChunk? && !act.MarkBatch? && !act.HandlerFails?
    requires Synced(design, db, p)
    ensures Synced(design, DbAfter(design, db, p, act), ProcAfter(design, db, p, act))
  {
    if act.StartRun? {
      NoMarksYet(db, db.nextRun);
    } else if LocalAct(act) {
      LocalActDecides(design, db, p, act);
      StillSynced(design, db, p, ProcAfter(design, db, p, act));
    } else {
      assert !Working(ProcAfter(design, db, p, act).phase);
    }
  }

  lemma StillSynced(design: Design, db: Database, p: Proc, p': Proc)
    requires Synced(design, db, p) && Working(p.phase) && Carries(p, p') && (Working(p'.phase) || p'.phase.Finishing?)
    ensures Synced(design, db, p')
  {
  }

  lemma WriteKeepsSynced(owner: string -> string, design: Design, db: Database, pid: nat, p: Proc, call: string)
    requires TableOk(owner, db.products, db.clock) && ProcOk(owner, db, pid, p) && CanAct(db, p, UpsertChunk(call))
    requires Synced(design, db, p)
    ensures Synced(design, UpsertBatchRows(design, db, NextWrite(p.calls[call])), p.(calls := WriteCalls(p, call)))
  {
    WriteEffect(owner, design, db, pid, p, call);
    SyncGrows(design, db, UpsertBatchRows(design, db, NextWrite(p.calls[call])), p,
              WriteCalls(p, call), Hashes(NextWrite(p.calls[call])));
  }

  lemma SyncGrows(design: Design, db: Database, db': Database, p: Proc, calls: map<string, Call>, hashes: set<string>)
    requires Synced(design, db, p) && p.phase.Scraping?
    requires db'.seen == db.seen && db'.runs == db.runs
    requires WrittenBy(calls) == WrittenBy(p.calls) + hashes && Sent(calls) == Sent(p.calls)
    requires var was, now := Fresh(db.products, p.vendor, p.start), Fresh(db'.products, p.vendor, p.start);
             was <= now && now <= was + hashes && (design.TouchAll? ==> hashes <= now)
    ensures Synced(design, db', p.(calls := calls))
  {
  }

  lemma MarkKeepsSynced(owner: string -> string, design: Design, db: Database, pid: nat, p: Proc, call: string)
    requires ProcOk(owner, db, pid, p) && CanAct(db, p, MarkBatch(call))
    requires Synced(design, db, p)
    ensures Synced(design, DbAfter(design, db, p, MarkBatch(call)), ProcAfter(design, db, p, MarkBatch(call)))
  {
    CallCloses(p.calls, call);
    MarkGrows(db, p.run, p.calls[call].products, p.run);
  }

  // ---------------------------------------------------------------- whole steps

  /** The invariant survives every event: crashes, reaped live runs and lost
      marks included. */
  lemma StepKeepsInv(owner: string -> string, design: Design, s: Sys, e: Event)
    requires Inv(owner, s) && Enabled(s, e) && WellFormed(owner, s, e)
    ensures Inv(owner, Step(design, s, e))
  {
    match e
    case Do(pid, act) => DoKeepsInv(owner, design, s, pid, act);
    case Acquire(pid, vendor) => AcquireKeepsInv(owner, design, s, pid, vendor);
    case Unlock(pid) => ExitKeepsInv(owner, s, pid);
    case Crash(pid) => ExitKeepsInv(owner, s, pid);
    case _ => OutsideKeepsInv(owner, design, s, e);
  }

  lemma DoKeepsInv(owner: string -> string, design: Design, s: Sys, pid: nat, act: Act)
    requires Inv(owner, s) && Enabled(s, Do(pid, act)) && WellFormed(owner, s, Do(pid, act))
    ensures Inv(owner, Step(design, s, Do(pid, act)))
  {
    var p := s.procs[pid];
    ActKeepsTables(owner, design, s.db, pid, p, act);
    ActKeepsProc(owner, design, s.db, pid, p, act);
    ActKeepsIdentity(design, s.db, p, act);
    forall q | q in s.procs && q != pid ensures ProcOk(owner, DbAfter(design, s.db, p, act), q, s.procs[q]) {
      ActFramesProc(owner, design, s, pid, act, q);
    }
    AssembleInv(owner, s, pid, DbAfter(design, s.db, p, act), ProcAfter(design, s.db, p, act));
  }

  lemma AssembleInv(owner: string -> string, s: Sys, pid: nat, db': Database, p': Proc)
    requires Inv(owner, s) && pid in s.procs
    requires TableOk(owner, db'.products, db'.clock) && RunsOk(db') && ProcOk(owner, db', pid, p')
    requires forall q :: q in s.procs && q != pid ==> ProcOk(owner, db', q, s.procs[q])
    requires p'.vendor == s.procs[pid].vendor && db'.locks == s.db.locks
    requires HasRun(p'.phase) ==> p'.run == if HasRun(s.procs[pid].phase) then s.procs[pid].run else s.db.nextRun
    ensures Inv(owner, Sys(db', s.procs[pid := p']))
  {
    assert forall q :: q in s.procs ==> ProcOk(owner, s.db, q, s.procs[q]);
  }

  lemma AcquireKeepsInv(owner: string -> string, design: Design, s: Sys, pid: nat, vendor: string)
    requires Inv(owner, s) && pid !in s.procs
    ensures Inv(owner, Step(design, s, Acquire(pid, vendor)))
  {
    var s' := Step(design, s, Acquire(pid, vendor));
    if vendor !in s.db.locks {
      forall q | q in s'.procs ensures ProcOk(owner, s'.db, q, s'.procs[q]) {
        if q != pid {
          ProcOkFrame(owner, s.db, s'.db, q, s.procs[q]);
        }
      }
    }
  }

  lemma ExitKeepsInv(owner: string -> string, s: Sys, pid: nat)
    requires Inv(owner, s) && pid in s.procs
    ensures Inv(owner, Exit(s, pid))
  {
    var s' := Exit(s, pid);
    forall q | q in s'.procs ensures ProcOk(owner, s'.db, q, s'.procs[q]) {
      ProcOkFrame(owner, s.db, s'.db, q, s.procs[q]);
    }
  }

  predicate Outside(e: Event) {
    e.Elapse? || e.Prune? || e.Reap? || e.LoseSeen? || e.Seed?
  }

  lemma OutsideKeepsInv(owner: string -> string, design: Design, s: Sys, e: Event)
    requires Inv(owner, s) && Outside(e) && WellFormed(owner, s, e)
    ensures Inv(owner, Step(design, s, e))
  {
    var s' := Step(design, s, e);
    if e.Seed? {
      UpsertKeepsTable(owner, design, s.db, e.batch);
    }
    forall q | q in s.procs ensures ProcOk(owner, s'.db, q, s.procs[q]) {
      if e.Seed? {
        UpsertVendorHashes(owner, design, s.db, e.batch, s.procs[q].vendor);
      }
      ProcOkFrame(owner, s.db, s'.db, q, s.procs[q]);
    }
    assert RunsOk(s'.db);
  }

  lemma ActKeepsIdentity(design: Design, db: Database, p: Proc, act: Act)
    requires CanAct(db, p, act)
    ensures var p' := ProcAfter(design, db, p, act);
            && p'.vendor == p.vendor
            && DbAfter(design, db, p, act).locks == db.locks
            && (HasRun(p'.phase) ==> p'.run == if HasRun(p.phase) then p.run else db.nextRun)
  {
  }

  lemma ActFramesProc(owner: string -> string, design: Design, s: Sys, pid: nat, act: Act, q: nat)
    requires Inv(owner, s) && pid in s.procs && q in s.procs && q != pid && CanAct(s.db, s.procs[pid], act)
    ensures ProcOk(owner, DbAfter(design, s.db, s.procs[pid], act), q, s.procs[q])
  {
    var db' := DbAfter(design, s.db, s.procs[pid], act);
    var other := s.procs[q];
    if HasRun(other.phase) {
      ActSparesOthers(owner, design, s.db, pid, s.procs[pid], act, other);
      ProcOkFrame(owner, s.db, db', q, other);
    } else {
      ActSparesOthers(owner, design, s.db, pid, s.procs[pid], act, other.(run := 0));
      ProcOkFrame(owner, s.db, db', q, other.(run := 0));
    }
  }

  lemma ActFramesSynced(owner: string -> string, design: Design, s: Sys, pid: nat, act: Act, q: nat)
    requires Inv(owner, s) && pid in s.procs && q in s.procs && q != pid && CanAct(s.db, s.procs[pid], act)
    requires Synced(design, s.db, s.procs[q])
    ensures Synced(design, DbAfter(design, s.db, s.procs[pid], act), s.procs[q])
  {
    var db' := DbAfter(design, s.db, s.procs[pid], act);
    var other := s.procs[q];
    if HasRun(other.phase) {
      ActSparesOthers(owner, design, s.db, pid, s.procs[pid], act, other);
      SyncedFrame(design, s.db, db', other);
    } else {
      ActSparesOthers(owner, design, s.db, pid, s.procs[pid], act, other.(run := 0));
      SyncedFrame(design, s.db, db', other.(run := 0));
    }
  }

  lemma StepKeepsSynced(owner: string -> string, design: Design, s: Sys, e: Event)
    requires Inv(owner, s) && AllSynced(design, s)
    requires Enabled(s, e) && WellFormed(owner, s, e) && Orderly(s, e)
    ensures AllSynced(design, Step(design, s, e))
  {
    var s' := Step(design, s, e);
    forall q | q in s'.procs ensures Synced(design, s'.db, s'.procs[q]) {
      match e
      case Do(pid, act) =>
        if q == pid {
          ActKeepsSynced(owner, design, s.db, pid, s.procs[pid], act);
        } else {
          ActFramesSynced(owner, design, s, pid, act, q);
        }
      case Acquire(pid, _) =>
        if q in s.procs { SyncedFrame(design, s.db, s'.db, s.procs[q]); }
      case Unlock(_) => SyncedFrame(design, s.db, s'.db, s.procs[q]);
      case Crash(_) => SyncedFrame(design, s.db, s'.db, s.procs[q]);
      case _ => OutsideKeepsSynced(owner, design, s, e, q);
    }
  }

  lemma OutsideKeepsSynced(owner: string -> string, design: Design, s: Sys, e: Event, q: nat)
    requires Inv(owner, s) && AllSynced(design, s) && q in s.procs
    requires Outside(e) && WellFormed(owner, s, e) && Orderly(s, e)
    ensures Synced(design, Step(design, s, e).db, s.procs[q])
  {
    var s', p := Step(design, s, e), s.procs[q];
    if p.phase.Clocked? || Working(p.phase) {
      if e.Seed? {
        UpsertOtherVendor(owner, design, s.db, e.batch, p.vendor);
      } else if e.LoseSeen? && Working(p.phase) {
        LosingOthersMarks(s.db.seen, e.lost, p.run);
      }
      SyncedFrame(design, s.db, s'.db, p);
    }
  }

  lemma LosingOthersMarks(seen: set<(nat, string)>, lost: set<(nat, string)>, run: nat)
    requires forall h :: (run, h) !in lost
    ensures SeenBy(seen - lost, run) == SeenBy(seen, run)
  {
    forall h | h in SeenBy(seen, run) ensures h in SeenBy(seen - lost, run) {
      assert (run, h) in seen - lost;
    }
  }

  // ---------------------------------------------------------------- whole histories

  ghost predicate WellFormedHistory(owner: string -> string, design: Design, s: Sys, events: seq<Event>)
    requires IsHistory(design, s, events)
    decreases |events|
  {
    events == [] ||
    (WellFormed(owner, s, events[0]) && WellFormedHistory(owner, design, Step(design, s, events[0]), events[1..]))
  }

  ghost predicate OrderlyHistory(design: Design, s: Sys, events: seq<Event>)
    requires IsHistory(design, s, events)
    decreases |events|
  {
    events == [] || (Orderly(s, events[0]) && OrderlyHistory(design, Step(design, s, events[0]), events[1..]))
  }

  /** Safety over every run, orderly or not. */
  lemma {:induction false} InvAlways(owner: string -> string, design: Design, s: Sys, events: seq<Event>)
    requires Inv(owner, s) && IsHistory(design, s, events) && WellFormedHistory(owner, design, s, events)
    ensures Inv(owner, After(design, s, events))
    decreases |events|
  {
    if events != [] {
      StepKeepsInv(owner, design, s, events[0]);
      InvAlways(owner, design, Step(design, s, events[0]), events[1..]);
    }
  }

  lemma {:induction false} SyncedAlways(owner: string -> string, design: Design, s: Sys, events: seq<Event>)
    requires Inv(owner, s) && AllSynced(design, s)
    requires IsHistory(design, s, events)
    requires WellFormedHistory(owner, design, s, events) && OrderlyHistory(design, s, events)
    ensures Inv(owner, After(design, s, events)) && AllSynced(design, After(design, s, events))
    decreases |events|
  {
    if events != [] {
      StepKeepsInv(owner, design, s, events[0]);
      StepKeepsSynced(owner, design, s, events[0]);
      SyncedAlways(owner, design, Step(design, s, events[0]), events[1..]);
    }
  }
}
