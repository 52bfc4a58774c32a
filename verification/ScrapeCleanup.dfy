/** What the stale cleanup deletes and keeps. */
module ScrapeCleanup {
  import opened Catalog
  import opened BatchUpsert
  import opened ScrapeStore
  import opened ScrapeMachine
  import opened ScrapeInvariants
  import opened ScrapeSafety
  import opened ScrapeRefinement

  // ---------------------------------------------------------------- orderly histories

  /** When a cleanup fires after an orderly history, the marks are exactly the
      hashes delivered to the run, the vendor is left with exactly those
      products, and no other vendor's row changes. */
  lemma CleanupKeepsExactlyTheDelivered(
      owner: string -> string, products: Table, clock: int, events: seq<Event>, pid: nat)
    requires TableOk(owner, products, clock)
    requires IsHistory(ChangedOnly, Boot(products, clock), events)
    requires WellFormedHistory(owner, ChangedOnly, Boot(products, clock), events)
    requires OrderlyHistory(ChangedOnly, Boot(products, clock), events)
    requires Enabled(After(ChangedOnly, Boot(products, clock), events), Do(pid, DeleteStale))
    ensures var s := After(ChangedOnly, Boot(products, clock), events);
            var p := s.procs[pid];
            var s' := Step(ChangedOnly, s, Do(pid, DeleteStale));
            && SeenBy(s.db.seen, p.run) == p.delivered
            && VendorHashes(s'.db.products, p.vendor) == p.delivered
            && (forall v :: v != p.vendor ==> VendorRows(s'.db.products, v) == VendorRows(s.db.products, v))
  {
    BootHolds(owner, ChangedOnly, products, clock);
    SyncedAlways(owner, ChangedOnly, Boot(products, clock), events);
    var s := After(ChangedOnly, Boot(products, clock), events);
    var p := s.procs[pid];
    assert ProcOk(owner, s.db, pid, p) && Synced(ChangedOnly, s.db, p);
    SurvivorsAreDelivered(owner, s.db, pid, p);
    forall v | v != p.vendor
      ensures VendorRows(DeleteStaleProducts(ChangedOnly, s.db, p.vendor, p.run, p.start).products, v)
           == VendorRows(s.db.products, v)
    {
      DeleteSparesOthers(ChangedOnly, s.db, p, v);
    }
  }

  lemma SurvivorsAreDelivered(owner: string -> string, db: Database, pid: nat, p: Proc)
    requires ProcOk(owner, db, pid, p) && Synced(ChangedOnly, db, p) && (p.phase.Counting? || p.phase.Deleting?)
    ensures SeenBy(db.seen, p.run) == p.delivered
    ensures VendorHashes(DeleteStaleProducts(ChangedOnly, db, p.vendor, p.run, p.start).products, p.vendor)
         == p.delivered
  {
    var marked := SeenBy(db.seen, p.run);
    assert WrittenBy(p.calls) == {} && Sent(p.calls) == {};
    assert marked == p.delivered;
    var left := VendorHashes(DeleteStaleProducts(ChangedOnly, db, p.vendor, p.run, p.start).products, p.vendor);
    forall h ensures h in left <==> h in marked {
      MarkedIff(db.seen, p.run, h);
      assert h in marked ==> h in VendorHashes(db.products, p.vendor);
      assert h in left ==> h in Fresh(db.products, p.vendor, p.start) || h in marked;
    }
  }

  /** The history variable means what its name says: the hashes in the Deliver
      events of that process. */
  function DeliveredIn(events: seq<Event>, pid: nat): set<string> {
    if events == [] then {}
    else
      var e := events[0];
      (if e.Do? && e.pid == pid && e.act.Deliver? then Hashes(e.act.products) else {}) + DeliveredIn(events[1..], pid)
  }

  lemma {:induction false} DeliveredIsWhatWasDelivered(design: Design, s: Sys, events: seq<Event>, pid: nat)
    requires IsHistory(design, s, events)
    requires pid in s.procs
    requires Unlock(pid) !in events && Crash(pid) !in events
    ensures pid in After(design, s, events).procs
    ensures After(design, s, events).procs[pid].delivered == s.procs[pid].delivered + DeliveredIn(events, pid)
    decreases |events|
  {
    if events != [] {
      var e := events[0];
      assert e in events;
      var s' := Step(design, s, e);
      if e.Do? && e.pid == pid {
        OnlyDeliverDelivers(design, s.db, s.procs[pid], e.act);
      }
      DeliveredIsWhatWasDelivered(design, s', events[1..], pid);
    }
  }

  lemma OnlyDeliverDelivers(design: Design, db: Database, p: Proc, act: Act)
    requires CanAct(db, p, act)
    ensures ProcAfter(design, db, p, act).delivered
         == p.delivered + if act.Deliver? then Hashes(act.products) else {}
  {
  }

  // ---------------------------------------------------------------- any history

  /** Which rows of the vendor a cleanup leaves, read off the statement. */
  lemma CleanupLeavesIff(owner: string -> string, s: Sys, pid: nat, h: string)
    requires Inv(owner, s) && Enabled(s, Do(pid, DeleteStale))
    requires h in VendorHashes(s.db.products, s.procs[pid].vendor)
    ensures var p := s.procs[pid];
            h in VendorHashes(Step(ChangedOnly, s, Do(pid, DeleteStale)).db.products, p.vendor)
            <==> h in Fresh(s.db.products, p.vendor, p.start) || h in SeenBy(s.db.seen, p.run)
  {
    MarkedIff(s.db.seen, s.procs[pid].run, h);
  }

  /** No mark goes away between a run's count and its cleanup. */
  ghost predicate CountStands(s: Sys, e: Event) {
    match e
    case LoseSeen(lost) =>
      forall pid, h :: pid in s.procs && s.procs[pid].phase.Deleting? ==> (s.procs[pid].run, h) !in lost
    case Do(clearer, Clear) =>
      forall pid :: pid in s.procs && s.procs[pid].phase.Deleting? ==> IsRunning(s.db, s.procs[pid].run)
    case _ => true
  }

  ghost predicate CountsStand(design: Design, s: Sys, events: seq<Event>)
    requires IsHistory(design, s, events)
    decreases |events|
  {
    events == [] || (CountStands(s, events[0]) && CountsStand(design, Step(design, s, events[0]), events[1..]))
  }

  ghost predicate Counted(s: Sys) {
    forall pid :: pid in s.procs && s.procs[pid].phase.Deleting? ==>
      s.procs[pid].counted <= |SeenBy(s.db.seen, s.procs[pid].run)|
  }

  lemma StepKeepsCounted(owner: string -> string, design: Design, s: Sys, e: Event)
    requires Inv(owner, s) && Counted(s) && Enabled(s, e) && WellFormed(owner, s, e) && CountStands(s, e)
    ensures Counted(Step(design, s, e))
  {
    var s' := Step(design, s, e);
    forall pid | pid in s'.procs && s'.procs[pid].phase.Deleting?
      ensures s'.procs[pid].counted <= |SeenBy(s'.db.seen, s'.procs[pid].run)|
    {
      match e
      case Do(actor, act) =>
        if pid == actor {
          OnlyCountingDeletes(design, s.db, s.procs[pid], act);
        } else {
          MarksStay(owner, design, s, actor, act, pid);
        }
      case LoseSeen(lost) => LosingOthersMarks(s.db.seen, lost, s.procs[pid].run);
      case _ => QuietEventsKeepMarks(design, s, e, pid);
    }
  }

  lemma OnlyCountingDeletes(design: Design, db: Database, p: Proc, act: Act)
    requires CanAct(db, p, act) && ProcAfter(design, db, p, act).phase.Deleting?
    ensures ProcAfter(design, db, p, act).counted == |SeenBy(DbAfter(design, db, p, act).seen, p.run)|
    ensures ProcAfter(design, db, p, act).run == p.run
  {
  }

  lemma QuietEventsKeepMarks(design: Design, s: Sys, e: Event, pid: nat)
    requires Enabled(s, e) && !e.Do? && !e.LoseSeen?
    requires pid in Step(design, s, e).procs && Step(design, s, e).procs[pid].phase.Deleting?
    ensures pid in s.procs && Step(design, s, e).procs[pid] == s.procs[pid]
    ensures Step(design, s, e).db.seen == s.db.seen
  {
  }

  lemma MarksStay(owner: string -> string, design: Design, s: Sys, actor: nat, act: Act, pid: nat)
    requires Inv(owner, s) && Enabled(s, Do(actor, act)) && CountStands(s, Do(actor, act))
    requires pid in s.procs && pid != actor && s.procs[pid].phase.Deleting?
    ensures SeenBy(DbAfter(design, s.db, s.procs[actor], act).seen, s.procs[pid].run)
         == SeenBy(s.db.seen, s.procs[pid].run)
  {
    var p, q := s.procs[actor], s.procs[pid];
    match act
    case MarkBatch(call) => MarkGrows(s.db, p.run, p.calls[call].products, q.run);
    case Clear => ClearKeepsRunning(s.db, p.run, q.run);
    case _ =>
  }

  lemma {:induction false} CountedAlways(owner: string -> string, design: Design, s: Sys, events: seq<Event>)
    requires Inv(owner, s) && Counted(s) && IsHistory(design, s, events)
    requires WellFormedHistory(owner, design, s, events) && CountsStand(design, s, events)
    ensures Inv(owner, After(design, s, events)) && Counted(After(design, s, events))
    decreases |events|
  {
    if events != [] {
      StepKeepsInv(owner, design, s, events[0]);
      StepKeepsCounted(owner, design, s, events[0]);
      CountedAlways(owner, design, Step(design, s, events[0]), events[1..]);
    }
  }

  /** Whatever marks were lost before they were counted, live runs reaped and
      processes crashed: a cleanup that fires leaves the vendor at least half of
      what the run ingested, never nothing, and the run itself had at least half
      of the last success it compared with. */
  lemma CleanupLeavesHalf(owner: string -> string, products: Table, clock: int, events: seq<Event>, pid: nat)
    requires TableOk(owner, products, clock)
    requires IsHistory(ChangedOnly, Boot(products, clock), events)
    requires WellFormedHistory(owner, ChangedOnly, Boot(products, clock), events)
    requires CountsStand(ChangedOnly, Boot(products, clock), events)
    requires Enabled(After(ChangedOnly, Boot(products, clock), events), Do(pid, DeleteStale))
    ensures var s := After(ChangedOnly, Boot(products, clock), events);
            var p := s.procs[pid];
            var left := VendorHashes(Step(ChangedOnly, s, Do(pid, DeleteStale)).db.products, p.vendor);
            && |left| >= 1 && |left| >= p.ingested / 2
            && (p.previous > 0 ==> p.ingested >= p.previous / 2)
  {
    BootHolds(owner, ChangedOnly, products, clock);
    CountedAlways(owner, ChangedOnly, Boot(products, clock), events);
    CleanupFloor(owner, After(ChangedOnly, Boot(products, clock), events), pid);
  }

  lemma CleanupFloor(owner: string -> string, s: Sys, pid: nat)
    requires Inv(owner, s) && Counted(s) && Enabled(s, Do(pid, DeleteStale))
    ensures var p := s.procs[pid];
            var left := VendorHashes(Step(ChangedOnly, s, Do(pid, DeleteStale)).db.products, p.vendor);
            && |left| >= 1 && |left| >= p.ingested / 2
            && (p.previous > 0 ==> p.ingested >= p.previous / 2)
  {
    MarkedRowsSurvive(owner, s.db, pid, s.procs[pid]);
  }

  lemma MarkedRowsSurvive(owner: string -> string, db: Database, pid: nat, p: Proc)
    requires ProcOk(owner, db, pid, p) && p.phase.Deleting?
    ensures var left := VendorHashes(DeleteStaleProducts(ChangedOnly, db, p.vendor, p.run, p.start).products, p.vendor);
            |SeenBy(db.seen, p.run)| <= |left|
    ensures p.counted >= 1 && p.counted >= p.ingested / 2
    ensures p.previous > 0 ==> p.ingested >= p.previous / 2
  {
    var left := VendorHashes(DeleteStaleProducts(ChangedOnly, db, p.vendor, p.run, p.start).products, p.vendor);
    forall h | h in SeenBy(db.seen, p.run) ensures h in left {
      MarkedIff(db.seen, p.run, h);
      assert h in VendorHashes(db.products, p.vendor);
    }
    SubsetSize(SeenBy(db.seen, p.run), left);
  }

  // ---------------------------------------------------------------- the previous count

  lemma {:induction false} LastStep(design: Design, s: Sys, events: seq<Event>)
    requires IsHistory(design, s, events) && |events| > 0
    ensures var n := |events| - 1;
            && IsHistory(design, s, events[..n]) && Enabled(After(design, s, events[..n]), events[n])
            && After(design, s, events) == Step(design, After(design, s, events[..n]), events[n])
    decreases |events|
  {
    if |events| > 1 {
      LastStep(design, Step(design, s, events[0]), events[1..]);
      assert events[..|events| - 1][1..] == events[1..][..|events| - 2];
    }
  }

  /** Event number `i` asked for the vendor's latest success; `prior` is the run that
      answered, and `count` is what it had recorded at that moment. */
  ghost predicate PreviousAnswered(design: Design, s: Sys, events: seq<Event>, pid: nat, vendor: string,
                           i: nat, prior: Option<nat>, count: nat)
  {
    && i < |events| && events[i] == Do(pid, ReadPrevious(prior)) && IsHistory(design, s, events[..i])
    && var runs := After(design, s, events[..i]).db.runs;
       if prior.Some? then IsLatestSuccess(runs, vendor, prior.value) && count == runs[prior.value].products
       else count == 0
  }

  lemma PreviousStays(design: Design, s: Sys, e: Event, pid: nat)
    requires Enabled(s, e) && pid in Step(design, s, e).procs
    requires var p' := Step(design, s, e).procs[pid]; p'.phase.Counting? || p'.phase.Deleting?
    requires !(e.Do? && e.pid == pid && e.act.ReadPrevious?)
    ensures pid in s.procs && (s.procs[pid].phase.Counting? || s.procs[pid].phase.Deleting?)
    ensures var p, p' := s.procs[pid], Step(design, s, e).procs[pid];
            p'.previous == p.previous && p'.vendor == p.vendor
  {
  }

  lemma PreviousIsRead(design: Design, s: Sys, pid: nat, prior: Option<nat>)
    requires Enabled(s, Do(pid, ReadPrevious(prior)))
    ensures var p' := Step(design, s, Do(pid, ReadPrevious(prior))).procs[pid];
            p'.phase.Counting? ==>
              && p'.vendor == s.procs[pid].vendor
              && (prior.Some? ==> IsLatestSuccess(s.db.runs, p'.vendor, prior.value)
                                  && p'.previous == s.db.runs[prior.value].products)
              && (prior.None? ==> p'.previous == 0)
  {
  }

  lemma {:induction false} PreviousWasAnswered(design: Design, s: Sys, events: seq<Event>, pid: nat)
      returns (i: nat, prior: Option<nat>)
    requires s.procs == map[] && IsHistory(design, s, events) && pid in After(design, s, events).procs
    requires var p := After(design, s, events).procs[pid]; p.phase.Counting? || p.phase.Deleting?
    ensures var p := After(design, s, events).procs[pid];
            PreviousAnswered(design, s, events, pid, p.vendor, i, prior, p.previous)
    decreases |events|
  {
    LastStep(design, s, events);
    var n := |events| - 1;
    var before, e := After(design, s, events[..n]), events[n];
    if e.Do? && e.pid == pid && e.act.ReadPrevious? {
      PreviousIsRead(design, before, pid, e.act.prior);
      i, prior := n, e.act.prior;
    } else {
      PreviousStays(design, before, e, pid);
      i, prior := PreviousWasAnswered(design, s, events[..n], pid);
      assert events[..n][..i] == events[..i];
    }
  }

  /** Whatever was lost, reaped or pruned: a run that cleans up has asked for the
      latest success, and if the query answered, it ingested at least half of what
      that run had recorded. */
  lemma CleanupComparesWithLatest(owner: string -> string, products: Table, clock: int, events: seq<Event>, pid: nat)
      returns (i: nat, prior: Option<nat>, count: nat)
    requires TableOk(owner, products, clock)
    requires IsHistory(ChangedOnly, Boot(products, clock), events)
    requires WellFormedHistory(owner, ChangedOnly, Boot(products, clock), events)
    requires Enabled(After(ChangedOnly, Boot(products, clock), events), Do(pid, DeleteStale))
    ensures var p := After(ChangedOnly, Boot(products, clock), events).procs[pid];
            && PreviousAnswered(ChangedOnly, Boot(products, clock), events, pid, p.vendor, i, prior, count)
            && p.ingested >= count / 2 && p.ingested > 0
    ensures var vendor := After(ChangedOnly, Boot(products, clock), events).procs[pid].vendor;
            var runs := After(ChangedOnly, Boot(products, clock), events[..i]).db.runs;
            if prior.Some? then LastSuccess(runs, vendor, prior.value) && count == runs[prior.value].products
            else count == 0
  {
    BootHolds(owner, ChangedOnly, products, clock);
    InvAlways(owner, ChangedOnly, Boot(products, clock), events);
    DeletingPassedGuards(owner, After(ChangedOnly, Boot(products, clock), events), pid);
    i, prior := PreviousWasAnswered(ChangedOnly, Boot(products, clock), events, pid);
    var p := After(ChangedOnly, Boot(products, clock), events).procs[pid];
    count := p.previous;
    if prior.Some? {
      LatestSuccessMeans(After(ChangedOnly, Boot(products, clock), events[..i]).db.runs, p.vendor, prior.value);
    }
  }

  lemma DeletingPassedGuards(owner: string -> string, s: Sys, pid: nat)
    requires Inv(owner, s) && Enabled(s, Do(pid, DeleteStale))
    ensures pid in s.procs && s.procs[pid].phase.Deleting?
    ensures s.procs[pid].ingested >= s.procs[pid].previous / 2 && s.procs[pid].ingested > 0
  {
    assert ProcOk(owner, s.db, pid, s.procs[pid]);
  }

  // ---------------------------------------------------------------- run records

  datatype Readiness = Never | Busy | Broken | Empty | Stale | Ready

  /** What /status makes of a vendor's latest run and latest success. */
  function VendorStatus(success: Option<Run>, latest: Option<Status>, outdated: bool): (r: Readiness)
    ensures r.Empty? <==>
            success.Some? && success.value.products == 0 && latest != Some(Running) && latest != Some(Failed)
    ensures r.Ready? ==> success.Some? && success.value.products > 0 && !outdated
  {
    if latest.None? && success.None? then Never
    else if latest == Some(Running) then Busy
    else if latest == Some(Failed) then Broken
    else if success.None? then Never
    else if success.value.products == 0 then Empty
    else if outdated then Stale
    else Ready
  }

  /** A run that ingested nothing is never recorded as a success, so in every
      history, crashes and reaped runs included, no success row is empty and
      the status page never has to say "empty". */
  lemma NoSuccessIsEmpty(owner: string -> string, design: Design, products: Table, clock: int, events: seq<Event>,
                         r: nat, latest: Option<Status>, outdated: bool)
    requires TableOk(owner, products, clock)
    requires IsHistory(design, Boot(products, clock), events)
    requires WellFormedHistory(owner, design, Boot(products, clock), events)
    requires var runs := After(design, Boot(products, clock), events).db.runs;
             r in runs && runs[r].status.Success?
    ensures var run := After(design, Boot(products, clock), events).db.runs[r];
            run.products > 0 && run.finishedAt.Some? && !VendorStatus(Some(run), latest, outdated).Empty?
  {
    BootHolds(owner, design, products, clock);
    InvAlways(owner, design, Boot(products, clock), events);
  }
}
