/** A scraper's fan-out inside a run of the scrape protocol: the goroutines of one
    scraper, the other processes and the database interleave freely. */
module ScrapeJoint {
  import opened Catalog
  import opened BatchUpsert
  import opened ScrapeStore
  import opened ScrapeMachine
  import opened ScrapeInvariants
  import opened ScrapeSafety
  import opened ScrapeCleanup
  import F = ScrapeFanout

  // ---------------------------------------------------------------- the joint system

  /** The whole system, and how far the scraper of one process has come. */
  datatype Joint = Joint(s: Sys, f: F.Fan)

  /** A step of the scraper, its return to runOneScrape, or a step of anything
      else: another process, the outside, or this process outside its scraper. */
  datatype Move =
    | Fanned(step: F.FanEvent)
    | Returns
    | Elsewhere(event: Event)

  /** What a task does to its run. */
  function TaskAct(policy: F.Policy, g: F.Group, e: F.TaskEvent): (act: Option<Act>)
    requires F.GroupCan(g, e)
    ensures act.Some? ==> ScraperAct(act.value) && !act.value.ScrapeReturns?
  {
    match e
    case CancelParent => None
    case FetchFails(t) => Some(if policy.PerService? && g.cancelled then ScrapeErrors else ServiceFails)
    case Fetched(t, products) => if policy.Collecting? || |products| == 0 then None else Some(Deliver(t, products))
    case HandlerOk(t) => Some(MarkBatch(t))
    case HandlerErr(t) => Some(HandlerFails(t, policy.PerRegion?))
  }

  /** The name of the handler call between the groups, made when no task runs. */
  const EXTRA := ""

  function FanAct(x: F.Scraper, f: F.Fan, e: F.FanEvent): (act: Option<Act>)
    requires F.FanCan(x, f, e)
    ensures act.Some? ==> ScraperAct(act.value) && !act.value.ScrapeReturns?
  {
    match e
    case Begin => if x.Gcp? && !x.hasKey then Some(ScrapeErrors) else None
    case InGroup(e) =>
      if f.stage.Services? then TaskAct(F.ServicePolicy(x), f.services, e) else TaskAct(F.PerRegion, f.regions, e)
    case EndServices(batch) => if F.Errors(f.services) || |batch| == 0 then None else Some(Deliver(EXTRA, batch))
    case ExtraOk => Some(MarkBatch(EXTRA))
    case ExtraErr => Some(HandlerFails(EXTRA, false))
    case ReadIndex => if x.Aws? && x.regions.Some? then None else Some(ScrapeErrors)
    case EndRegions => if F.AllRegionsFailed(f.regions) then Some(ScrapeErrors) else None
  }

  predicate ScraperAct(act: Act) {
    act.Deliver? || act.MarkBatch? || act.HandlerFails? || act.ServiceFails? || act.ScrapeErrors? || act.ScrapeReturns?
  }

  /** Session ids are not reused, and only the scraper takes scraper steps. The
      chunks of an open handler call are written by the database layer. */
  predicate Foreign(pid: nat, e: Event) {
    match e
    case Acquire(q, _) => q != pid
    case Do(q, act) => q == pid ==> !ScraperAct(act)
    case _ => true
  }

  ghost predicate Can(x: F.Scraper, pid: nat, j: Joint, m: Move) {
    match m
    case Fanned(e) =>
      && pid in j.s.procs && j.s.procs[pid].phase.Scraping? && F.FanCan(x, j.f, e)
      && (FanAct(x, j.f, e).Some? ==> Enabled(j.s, Do(pid, FanAct(x, j.f, e).value)))
    case Returns => j.f.stage.Over? && Enabled(j.s, Do(pid, ScrapeReturns))
    case Elsewhere(e) => Foreign(pid, e) && Enabled(j.s, e)
  }

  /** The protocol event a move amounts to, if any. */
  ghost function EventOf(x: F.Scraper, pid: nat, j: Joint, m: Move): Option<Event>
    requires Can(x, pid, j, m)
  {
    match m
    case Fanned(e) => if FanAct(x, j.f, e).Some? then Some(Do(pid, FanAct(x, j.f, e).value)) else None
    case Returns => Some(Do(pid, ScrapeReturns))
    case Elsewhere(e) => Some(e)
  }

  ghost function Next(design: Design, x: F.Scraper, pid: nat, j: Joint, m: Move): Joint
    requires Can(x, pid, j, m)
  {
    var e := EventOf(x, pid, j, m);
    Joint(if e.Some? then Step(design, j.s, e.value) else j.s,
          if m.Fanned? then F.FanStep(x, j.f, m.step) else j.f)
  }

  ghost predicate IsJoint(design: Design, x: F.Scraper, pid: nat, j: Joint, moves: seq<Move>)
    decreases |moves|
  {
    moves == [] || (Can(x, pid, j, moves[0]) && IsJoint(design, x, pid, Next(design, x, pid, j, moves[0]), moves[1..]))
  }

  ghost function JointAfter(design: Design, x: F.Scraper, pid: nat, j: Joint, moves: seq<Move>): Joint
    requires IsJoint(design, x, pid, j, moves)
    decreases |moves|
  {
    if moves == [] then j else JointAfter(design, x, pid, Next(design, x, pid, j, moves[0]), moves[1..])
  }

  /** The protocol's share of a joint history. */
  ghost function Events(design: Design, x: F.Scraper, pid: nat, j: Joint, moves: seq<Move>): seq<Event>
    requires IsJoint(design, x, pid, j, moves)
    decreases |moves|
  {
    if moves == [] then []
    else
      var e := EventOf(x, pid, j, moves[0]);
      (if e.Some? then [e.value] else []) + Events(design, x, pid, Next(design, x, pid, j, moves[0]), moves[1..])
  }

  /** Every joint history is a history of the protocol, so what holds of those
      holds here. */
  lemma {:induction false} JointIsHistory(design: Design, x: F.Scraper, pid: nat, j: Joint, moves: seq<Move>)
    requires IsJoint(design, x, pid, j, moves)
    ensures IsHistory(design, j.s, Events(design, x, pid, j, moves))
    ensures After(design, j.s, Events(design, x, pid, j, moves)) == JointAfter(design, x, pid, j, moves).s
    decreases |moves|
  {
    if moves != [] {
      var j' := Next(design, x, pid, j, moves[0]);
      var e := EventOf(x, pid, j, moves[0]);
      var rest := Events(design, x, pid, j', moves[1..]);
      JointIsHistory(design, x, pid, j', moves[1..]);
      if e.Some? {
        assert ([e.value] + rest)[1..] == rest;
      } else {
        assert [] + rest == rest;
      }
    }
  }

  ghost predicate JointWellFormed(owner: string -> string, design: Design, x: F.Scraper, pid: nat, j: Joint,
                                  moves: seq<Move>)
    requires IsJoint(design, x, pid, j, moves)
  {
    JointIsHistory(design, x, pid, j, moves);
    WellFormedHistory(owner, design, j.s, Events(design, x, pid, j, moves))
  }

  ghost predicate JointOrderly(design: Design, x: F.Scraper, pid: nat, j: Joint, moves: seq<Move>)
    requires IsJoint(design, x, pid, j, moves)
  {
    JointIsHistory(design, x, pid, j, moves);
    OrderlyHistory(design, j.s, Events(design, x, pid, j, moves))
  }

  // ---------------------------------------------------------------- the coupling

  function OpenTasks(g: F.Group): map<string, seq<Product>> {
    map t | t in g.tasks && g.tasks[t].Handling? :: g.tasks[t].batch
  }

  /** The handler calls the scraper is waiting for. */
  function Open(f: F.Fan): map<string, seq<Product>> {
    match f.stage
    case Services => OpenTasks(f.services)
    case Extra => map[EXTRA := F.BatchOf(f.extra)]
    case Regions => OpenTasks(f.regions)
    case _ => map[]
  }

  ghost predicate SameCalls(calls: map<string, Call>, open: map<string, seq<Product>>) {
    && (forall c :: c in calls <==> c in open)
    && (forall c :: c in calls ==> calls[c].products == open[c])
  }

  /** The hashes handed to the handler. */
  function Handed(x: F.Scraper, f: F.Fan): set<string> {
    (if x.Aws? then {} else F.BatchHashes(f.services)) + Hashes(F.BatchOf(f.extra)) + F.BatchHashes(f.regions)
  }

  predicate Failing(f: F.Fan) {
    F.Errors(f.services) || f.stage == F.Over(F.Error)
  }

  function Failures(f: F.Fan): nat {
    f.services.failed + f.regions.failed
  }

  ghost predicate Books(p: Proc, failing: bool, failures: nat, open: map<string, seq<Product>>, handed: set<string>) {
    && p.errored == failing && p.failed == failures && SameCalls(p.calls, open)
    && (Clean(p) ==> p.delivered == handed)
  }

  /** The run's own books agree with the scraper's. */
  ghost predicate Agrees(x: F.Scraper, p: Proc, f: F.Fan) {
    Books(p, Failing(f), Failures(f), Open(f), Handed(x, f))
  }

  predicate Deciding(phase: Phase) {
    phase.Judging? || phase.Counting? || phase.Deleting?
  }

  ghost predicate Matches(x: F.Scraper, p: Proc, f: F.Fan) {
    && (p.phase.Locked? || p.phase.Clocked? ==>
          f == F.Start(x) && p.calls == map[] && p.failed == 0 && !p.errored && p.delivered == {})
    && (p.phase.Scraping? ==> Agrees(x, p, f))
    && (Deciding(p.phase) ==> Agrees(x, p, f) && !p.errored && f.stage == F.Over(F.Returned(p.failed)))
  }

  ghost predicate Coupled(x: F.Scraper, pid: nat, j: Joint) {
    F.Sound(x, j.f) && (pid in j.s.procs ==> Matches(x, j.s.procs[pid], j.f))
  }

  // ---------------------------------------------------------------- one task event

  /** What a scraper act does to its process. */
  function ActedProc(p: Proc, act: Option<Act>): Proc {
    match act
    case Some(Deliver(call, products)) =>
      p.(calls := p.calls[call := Call(products, 0)], delivered := p.delivered + Hashes(products))
    case Some(MarkBatch(call)) =>
      if call !in p.calls then p
      else p.(calls := p.calls - {call}, ingested := p.ingested + |p.calls[call].products|)
    case Some(HandlerFails(call, swallowed)) =>
      var q := p.(calls := p.calls - {call});
      if swallowed then q.(failed := q.failed + 1) else q.(errored := true)
    case Some(ServiceFails) => p.(failed := p.failed + 1)
    case Some(ScrapeErrors) => p.(errored := true)
    case _ => p
  }

  lemma ActsOnProc(design: Design, db: Database, p: Proc, act: Act)
    requires CanAct(db, p, act) && ScraperAct(act) && !act.ScrapeReturns?
    ensures ProcAfter(design, db, p, act) == ActedProc(p, Some(act))
  {
  }

  predicate Breaks(policy: F.Policy, g: F.Group, e: F.TaskEvent) {
    (e.FetchFails? && policy.PerService? && g.cancelled) || (e.HandlerErr? && !policy.PerRegion?)
  }

  lemma TaskBreaks(policy: F.Policy, g: F.Group, e: F.TaskEvent)
    requires F.GroupCan(g, e)
    ensures F.Errors(F.GroupStep(policy, g, e)) <==> F.Errors(g) || Breaks(policy, g, e)
  {
    var g' := F.GroupStep(policy, g, e);
    if F.Errors(g) {
      var t :| t in g.tasks && g.tasks[t].Broken?;
      assert g'.tasks[t].Broken?;
    }
    if Breaks(policy, g, e) {
      assert g'.tasks[e.task].Broken?;
    }
  }

  function OpenAfter(policy: F.Policy, open: map<string, seq<Product>>, e: F.TaskEvent): map<string, seq<Product>> {
    match e
    case Fetched(t, products) => if policy.Collecting? || |products| == 0 then open else open[t := products]
    case HandlerOk(t) => open - {t}
    case HandlerErr(t) => open - {t}
    case _ => open
  }

  lemma TaskOpens(policy: F.Policy, g: F.Group, e: F.TaskEvent)
    requires F.GroupCan(g, e)
    ensures OpenTasks(F.GroupStep(policy, g, e)) == OpenAfter(policy, OpenTasks(g), e)
  {
    var g' := F.GroupStep(policy, g, e);
    forall t ensures t in OpenTasks(g') <==> t in OpenAfter(policy, OpenTasks(g), e) {
    }
  }

  lemma TaskCalls(policy: F.Policy, g: F.Group, e: F.TaskEvent, p: Proc)
    requires F.GroupCan(g, e) && SameCalls(p.calls, OpenTasks(g))
    ensures SameCalls(ActedProc(p, TaskAct(policy, g, e)).calls, OpenTasks(F.GroupStep(policy, g, e)))
  {
    TaskOpens(policy, g, e);
    CallsFollow(policy, g, OpenTasks(g), e, p);
  }

  lemma CallsFollow(policy: F.Policy, g: F.Group, open: map<string, seq<Product>>, e: F.TaskEvent, p: Proc)
    requires F.GroupCan(g, e) && SameCalls(p.calls, open)
    requires e.HandlerOk? || e.HandlerErr? ==> e.task in open
    ensures SameCalls(ActedProc(p, TaskAct(policy, g, e)).calls, OpenAfter(policy, open, e))
  {
  }

  lemma TaskCounts(policy: F.Policy, g: F.Group, e: F.TaskEvent, p: Proc)
    requires F.GroupCan(g, e) && SameCalls(p.calls, OpenTasks(g))
    ensures var g', p' := F.GroupStep(policy, g, e), ActedProc(p, TaskAct(policy, g, e));
            && p'.failed - p.failed == g'.failed - g.failed
            && (p'.errored <==> p.errored || Breaks(policy, g, e))
            && p'.phase == p.phase
  {
  }

  lemma TaskDelivers(policy: F.Policy, g: F.Group, e: F.TaskEvent, p: Proc)
    requires F.GroupCan(g, e) && SameCalls(p.calls, OpenTasks(g))
    ensures var g', p' := F.GroupStep(policy, g, e), ActedProc(p, TaskAct(policy, g, e));
            Clean(p') ==>
              && Clean(p)
              && p'.delivered == p.delivered + (if e.Fetched? && !policy.Collecting? then Hashes(e.products) else {})
              && F.BatchHashes(g') == F.BatchHashes(g) + (if e.Fetched? then Hashes(e.products) else {})
  {
    if !e.HandlerErr? {
      F.StepBatches(policy, g, e);
    }
    if e.Fetched? && |e.products| == 0 {
      assert Hashes(e.products) == {};
    }
  }

  // ---------------------------------------------------------------- one scraper event

  lemma ServiceEventAgrees(x: F.Scraper, f: F.Fan, e: F.TaskEvent, p: Proc)
    requires f.stage.Services? && F.GroupCan(f.services, e) && Agrees(x, p, f)
    requires x.Aws? ==> forall t :: t in f.services.tasks ==> !f.services.tasks[t].Handling?
    ensures Agrees(x, ActedProc(p, TaskAct(F.ServicePolicy(x), f.services, e)),
                   f.(services := F.GroupStep(F.ServicePolicy(x), f.services, e)))
  {
    var policy := F.ServicePolicy(x);
    TaskCalls(policy, f.services, e, p);
    TaskCounts(policy, f.services, e, p);
    TaskDelivers(policy, f.services, e, p);
    TaskBreaks(policy, f.services, e);
  }

  lemma RegionEventAgrees(x: F.Scraper, f: F.Fan, e: F.TaskEvent, p: Proc)
    requires f.stage.Regions? && F.GroupCan(f.regions, e) && Agrees(x, p, f)
    ensures Agrees(x, ActedProc(p, TaskAct(F.PerRegion, f.regions, e)),
                   f.(regions := F.GroupStep(F.PerRegion, f.regions, e)))
  {
    TaskCalls(F.PerRegion, f.regions, e, p);
    TaskCounts(F.PerRegion, f.regions, e, p);
    TaskDelivers(F.PerRegion, f.regions, e, p);
  }

  lemma FinishedIsIdle(g: F.Group)
    requires F.AllReturned(g)
    ensures OpenTasks(g) == map[]
  {
  }

  lemma LaunchIsIdle(targets: set<string>)
    ensures OpenTasks(F.Launch(targets)) == map[] && !F.Errors(F.Launch(targets))
  {
  }

  lemma BooksDeliver(p: Proc, failing: bool, failures: nat, open: map<string, seq<Product>>, handed: set<string>,
                     call: string, batch: seq<Product>)
    requires Books(p, failing, failures, open, handed) && call !in open
    ensures Books(ActedProc(p, Some(Deliver(call, batch))), failing, failures, open[call := batch],
                  handed + Hashes(batch))
  {
  }

  lemma BooksClose(p: Proc, failing: bool, failures: nat, open: map<string, seq<Product>>, handed: set<string>,
                   call: string)
    requires Books(p, failing, failures, open, handed) && call in open
    ensures call in p.calls && Books(ActedProc(p, Some(MarkBatch(call))), failing, failures, open - {call}, handed)
    ensures forall any :: Books(ActedProc(p, Some(HandlerFails(call, false))), true, failures, open - {call}, any)
  {
  }

  lemma BooksError(p: Proc, failing: bool, failures: nat, open: map<string, seq<Product>>, handed: set<string>)
    requires Books(p, failing, failures, open, handed)
    ensures forall any :: Books(ActedProc(p, Some(ScrapeErrors)), true, failures, open, any)
  {
  }

  lemma StageEventAgrees(x: F.Scraper, f: F.Fan, e: F.FanEvent, p: Proc)
    requires F.Sound(x, f) && F.FanCan(x, f, e) && !e.InGroup? && Agrees(x, p, f)
    ensures Agrees(x, ActedProc(p, FanAct(x, f, e)), F.FanStep(x, f, e))
  {
    match e
    case EndServices(batch) => ServicesEndAgrees(x, f, batch, p);
    case ExtraOk => ExtraAgrees(x, f, e, p);
    case ExtraErr => ExtraAgrees(x, f, e, p);
    case _ => QuietStageAgrees(x, f, e, p);
  }

  lemma ServicesEndAgrees(x: F.Scraper, f: F.Fan, batch: seq<Product>, p: Proc)
    requires F.FanCan(x, f, F.EndServices(batch)) && f.extra.Pending? && Agrees(x, p, f)
    ensures Agrees(x, ActedProc(p, FanAct(x, f, F.EndServices(batch))), F.FanStep(x, f, F.EndServices(batch)))
  {
    ServicesEnd(x, f, batch);
    BooksDeliver(p, Failing(f), Failures(f), Open(f), Handed(x, f), EXTRA, batch);
  }

  lemma ExtraAgrees(x: F.Scraper, f: F.Fan, e: F.FanEvent, p: Proc)
    requires F.FanCan(x, f, e) && !F.Errors(f.services) && Agrees(x, p, f)
    requires e.ExtraOk? || e.ExtraErr?
    ensures Agrees(x, ActedProc(p, FanAct(x, f, e)), F.FanStep(x, f, e))
  {
    ExtraEnds(x, f);
    BooksClose(p, Failing(f), Failures(f), Open(f), Handed(x, f), EXTRA);
  }

  lemma QuietStageAgrees(x: F.Scraper, f: F.Fan, e: F.FanEvent, p: Proc)
    requires F.Sound(x, f) && F.FanCan(x, f, e) && (e.Begin? || e.ReadIndex? || e.EndRegions?) && Agrees(x, p, f)
    ensures Agrees(x, ActedProc(p, FanAct(x, f, e)), F.FanStep(x, f, e))
  {
    QuietStage(x, f, e);
    BooksError(p, Failing(f), Failures(f), Open(f), Handed(x, f));
  }

  lemma ServicesEnd(x: F.Scraper, f: F.Fan, batch: seq<Product>)
    requires F.FanCan(x, f, F.EndServices(batch)) && f.extra.Pending?
    ensures var f' := F.FanStep(x, f, F.EndServices(batch));
            && Failing(f') == Failing(f) && Failures(f') == Failures(f) && Open(f) == map[]
            && (if F.Errors(f.services) then Open(f') == map[] && Handed(x, f') == Handed(x, f)
                else Handed(x, f') == Handed(x, f) + Hashes(batch)
                     && Open(f') == (if |batch| == 0 then map[] else map[EXTRA := batch]))
            && (|batch| == 0 ==> Hashes(batch) == {})
  {
    FinishedIsIdle(f.services);
  }

  lemma ExtraEnds(x: F.Scraper, f: F.Fan)
    requires f.stage.Extra? && f.extra.Handling? && !F.Errors(f.services)
    ensures Open(f).Keys == {EXTRA} && Open(f) - {EXTRA} == map[]
    ensures var f' := F.FanStep(x, f, F.ExtraOk);
            Failing(f') == Failing(f) && Failures(f') == Failures(f) && Open(f') == map[]
                && Handed(x, f') == Handed(x, f)
    ensures var f' := F.FanStep(x, f, F.ExtraErr);
            Failing(f') && Failures(f') == Failures(f) && Open(f') == map[]
  {
  }

  lemma QuietStage(x: F.Scraper, f: F.Fan, e: F.FanEvent)
    requires F.Sound(x, f) && F.FanCan(x, f, e) && (e.Begin? || e.ReadIndex? || e.EndRegions?)
    ensures var f' := F.FanStep(x, f, e);
            && Failing(f') == (Failing(f) || FanAct(x, f, e).Some?) && Failures(f') == Failures(f)
            && Open(f') == Open(f) && Handed(x, f') == Handed(x, f)
    ensures FanAct(x, f, e) in {None, Some(ScrapeErrors)}
  {
    match e
    case Begin => LaunchIsIdle(F.Targets(x));
    case ReadIndex => LaunchIsIdle(F.RegionNames(x));
    case EndRegions => FinishedIsIdle(f.regions);
  }

  lemma FanEventAgrees(x: F.Scraper, f: F.Fan, e: F.FanEvent, p: Proc)
    requires F.Sound(x, f) && F.FanCan(x, f, e) && Agrees(x, p, f)
    ensures Agrees(x, ActedProc(p, FanAct(x, f, e)), F.FanStep(x, f, e))
  {
    if !e.InGroup? {
      StageEventAgrees(x, f, e, p);
    } else if f.stage.Services? {
      ServiceEventAgrees(x, f, e.e, p);
    } else {
      RegionEventAgrees(x, f, e.e, p);
    }
  }

  // ---------------------------------------------------------------- every move

  lemma FannedKeepsCoupled(design: Design, x: F.Scraper, pid: nat, j: Joint, e: F.FanEvent)
    requires Coupled(x, pid, j) && Can(x, pid, j, Fanned(e))
    ensures Coupled(x, pid, Next(design, x, pid, j, Fanned(e)))
  {
    F.FanStepKeepsSound(x, j.f, e);
    FanEventAgrees(x, j.f, e, j.s.procs[pid]);
    FannedMoves(design, x, pid, j, e);
  }

  lemma FannedMoves(design: Design, x: F.Scraper, pid: nat, j: Joint, e: F.FanEvent)
    requires Can(x, pid, j, Fanned(e))
    ensures var j' := Next(design, x, pid, j, Fanned(e));
            && j'.f == F.FanStep(x, j.f, e)
            && pid in j'.s.procs && j'.s.procs[pid] == ActedProc(j.s.procs[pid], FanAct(x, j.f, e))
            && j'.s.procs[pid].phase.Scraping?
  {
    var act := FanAct(x, j.f, e);
    if act.Some? {
      ActsOnProc(design, j.s.db, j.s.procs[pid], act.value);
    }
  }

  lemma ReturnKeepsCoupled(design: Design, x: F.Scraper, pid: nat, j: Joint)
    requires Coupled(x, pid, j) && Can(x, pid, j, Returns)
    ensures Coupled(x, pid, Next(design, x, pid, j, Returns))
  {
    if j.f.stage.report.Returned? {
      OverCounts(x, j.f);
    }
    ReturnMatches(design, x, j.s.db, j.s.procs[pid], j.f);
    ReturnMoves(design, x, pid, j);
  }

  lemma OverCounts(x: F.Scraper, f: F.Fan)
    requires F.Sound(x, f) && f.stage.Over? && f.stage.report.Returned?
    ensures f.stage.report.failedServices == Failures(f)
  {
  }

  lemma ReturnMoves(design: Design, x: F.Scraper, pid: nat, j: Joint)
    requires Can(x, pid, j, Returns)
    ensures var j' := Next(design, x, pid, j, Returns);
            && j'.f == j.f && pid in j'.s.procs
            && j'.s.procs[pid] == ProcAfter(design, j.s.db, j.s.procs[pid], ScrapeReturns)
  {
  }

  lemma ReturnMatches(design: Design, x: F.Scraper, db: Database, p: Proc, f: F.Fan)
    requires Agrees(x, p, f) && f.stage.Over? && CanAct(db, p, ScrapeReturns)
    requires f.stage.report.Returned? ==> f.stage.report.failedServices == Failures(f)
    ensures Matches(x, ProcAfter(design, db, p, ScrapeReturns), f)
  {
    var p' := ProcAfter(design, db, p, ScrapeReturns);
    if f.stage.report.Returned? {
      assert f.stage == F.Over(F.Returned(Failures(f)));
    } else {
      assert p.errored;
    }
    SameBooks(x, p, p', f);
  }

  lemma SameBooks(x: F.Scraper, p: Proc, p': Proc, f: F.Fan)
    requires Agrees(x, p, f) && p'.errored == p.errored && p'.failed == p.failed && p'.delivered == p.delivered
    requires forall c :: c in p'.calls <==> c in p.calls
    requires forall c :: c in p.calls ==> p'.calls[c].products == p.calls[c].products
    ensures Agrees(x, p', f)
  {
  }

  lemma OwnActKeepsBooks(design: Design, db: Database, p: Proc, act: Act)
    requires CanAct(db, p, act) && !ScraperAct(act)
    ensures var p' := ProcAfter(design, db, p, act);
            && p'.errored == p.errored && p'.failed == p.failed && p'.delivered == p.delivered
            && (forall c :: c in p'.calls <==> c in p.calls)
            && (forall c :: c in p.calls ==> p'.calls[c].products == p.calls[c].products)
            && (p'.phase.Locked? || p'.phase.Clocked? ==> p.phase.Locked? && p'.calls == p.calls)
            && (p'.phase.Scraping? ==> p.phase.Scraping? || act.StartRun?)
            && (Deciding(p'.phase) ==> Deciding(p.phase))
            && (act.StartRun? ==> p.phase.Clocked? && p'.phase.Scraping? && p'.calls == p.calls)
  {
  }

  /** The process outside its scraper: the books stay as they are. */
  lemma OwnActMatches(design: Design, x: F.Scraper, db: Database, p: Proc, act: Act, f: F.Fan)
    requires Matches(x, p, f) && CanAct(db, p, act) && !ScraperAct(act)
    ensures Matches(x, ProcAfter(design, db, p, act), f)
  {
    var p' := ProcAfter(design, db, p, act);
    OwnActKeepsBooks(design, db, p, act);
    if act.StartRun? {
      StartAgrees(x, p');
    } else if p'.phase.Scraping? || Deciding(p'.phase) {
      SameBooks(x, p, p', f);
    }
  }

  lemma StartAgrees(x: F.Scraper, p: Proc)
    requires p.calls == map[] && p.failed == 0 && !p.errored && p.delivered == {}
    ensures Agrees(x, p, F.Start(x))
  {
    F.LaunchAccounted(F.ServicePolicy(x), F.Targets(x));
    F.LaunchAccounted(F.PerRegion, F.RegionNames(x));
    LaunchIsIdle(F.Targets(x));
  }

  lemma ElsewhereKeepsCoupled(design: Design, x: F.Scraper, pid: nat, j: Joint, e: Event)
    requires Coupled(x, pid, j) && Can(x, pid, j, Elsewhere(e))
    ensures Coupled(x, pid, Next(design, x, pid, j, Elsewhere(e)))
  {
    var s' := Step(design, j.s, e);
    if pid in s'.procs {
      BystanderStays(design, j.s, e, pid);
      if e.Do? && e.pid == pid {
        OwnActMatches(design, x, j.s.db, j.s.procs[pid], e.act, j.f);
      }
    }
  }

  lemma BystanderStays(design: Design, s: Sys, e: Event, pid: nat)
    requires Enabled(s, e) && Foreign(pid, e) && pid in Step(design, s, e).procs
    ensures pid in s.procs
    ensures e.Do? && e.pid == pid ==> Step(design, s, e).procs[pid] == ProcAfter(design, s.db, s.procs[pid], e.act)
    ensures !(e.Do? && e.pid == pid) ==> Step(design, s, e).procs[pid] == s.procs[pid]
  {
  }

  lemma NextKeepsCoupled(design: Design, x: F.Scraper, pid: nat, j: Joint, m: Move)
    requires Coupled(x, pid, j) && Can(x, pid, j, m)
    ensures Coupled(x, pid, Next(design, x, pid, j, m))
  {
    match m
    case Fanned(e) => FannedKeepsCoupled(design, x, pid, j, e);
    case Returns => ReturnKeepsCoupled(design, x, pid, j);
    case Elsewhere(e) => ElsewhereKeepsCoupled(design, x, pid, j, e);
  }

  lemma {:induction false} CoupledAlways(design: Design, x: F.Scraper, pid: nat, j: Joint, moves: seq<Move>)
    requires Coupled(x, pid, j) && IsJoint(design, x, pid, j, moves)
    ensures Coupled(x, pid, JointAfter(design, x, pid, j, moves))
    decreases |moves|
  {
    if moves != [] {
      NextKeepsCoupled(design, x, pid, j, moves[0]);
      CoupledAlways(design, x, pid, Next(design, x, pid, j, moves[0]), moves[1..]);
    }
  }

  // ---------------------------------------------------------------- nothing is blocked

  /** The protocol never stops the scraper: whatever a task or a stage can do
      next, the run can do with it, once the database is through with the batch. */
  lemma ScraperIsNeverBlocked(x: F.Scraper, pid: nat, j: Joint, e: F.FanEvent)
    requires pid in j.s.procs && j.s.procs[pid].phase.Scraping? && Agrees(x, j.s.procs[pid], j.f)
    requires F.FanCan(x, j.f, e) && Written(j.s.procs[pid].calls, FanAct(x, j.f, e))
    ensures Can(x, pid, j, Fanned(e))
  {
    if FanAct(x, j.f, e).Some? {
      CallsAreOpen(x, j.f, e, j.s.procs[pid].calls);
    }
  }

  lemma CallsAreOpen(x: F.Scraper, f: F.Fan, e: F.FanEvent, calls: map<string, Call>)
    requires F.FanCan(x, f, e) && FanAct(x, f, e).Some? && SameCalls(calls, Open(f))
    ensures match FanAct(x, f, e).value
            case Deliver(call, products) => call !in calls && |products| > 0
            case MarkBatch(call) => call in calls
            case HandlerFails(call, _) => call in calls
            case _ => true
  {
    if e.EndServices? {
      FinishedIsIdle(f.services);
    }
  }

  lemma ReturnIsNeverBlocked(x: F.Scraper, pid: nat, j: Joint)
    requires pid in j.s.procs && j.s.procs[pid].phase.Scraping? && Agrees(x, j.s.procs[pid], j.f) && j.f.stage.Over?
    ensures Can(x, pid, j, Returns)
  {
    assert Open(j.f) == map[];
    assert j.s.procs[pid].calls.Keys == {};
  }

  predicate Written(calls: map<string, Call>, act: Option<Act>) {
    act.Some? && act.value.MarkBatch? && act.value.call in calls ==>
      calls[act.value.call].written == |calls[act.value.call].products|
  }

  // ---------------------------------------------------------------- the results

  /** A session that has just taken its vendor's lock. */
  ghost predicate JustLocked(s: Sys, pid: nat) {
    pid in s.procs && s.procs[pid] == NewProc(s.procs[pid].vendor)
  }

  lemma CoupledFromLock(design: Design, x: F.Scraper, pid: nat, s: Sys, moves: seq<Move>)
    requires JustLocked(s, pid) && IsJoint(design, x, pid, Joint(s, F.Start(x)), moves)
    ensures Coupled(x, pid, JointAfter(design, x, pid, Joint(s, F.Start(x)), moves))
  {
    F.StartSound(x);
    CoupledAlways(design, x, pid, Joint(s, F.Start(x)), moves);
  }

  /** When a scraper is over, its run knows what happened: an error exactly when
      the scraper reports one, and a failure counter equal to the number of failed
      services and regions. */
  lemma ReportIsTrue(design: Design, x: F.Scraper, pid: nat, s: Sys, moves: seq<Move>)
    requires JustLocked(s, pid) && IsJoint(design, x, pid, Joint(s, F.Start(x)), moves)
    ensures var j := JointAfter(design, x, pid, Joint(s, F.Start(x)), moves);
            j.f.stage.Over? && pid in j.s.procs && j.s.procs[pid].phase.Scraping? ==>
              var p, failed := j.s.procs[pid], |F.FailedTasks(j.f.services)| + |F.FailedTasks(j.f.regions)|;
              && (p.errored <==> j.f.stage.report.Error?)
              && (j.f.stage.report.Returned? ==> j.f.stage.report.failedServices == p.failed == failed)
              && Can(x, pid, j, Returns)
  {
    CoupledFromLock(design, x, pid, s, moves);
    var j := JointAfter(design, x, pid, Joint(s, F.Start(x)), moves);
    if j.f.stage.Over? && pid in j.s.procs && j.s.procs[pid].phase.Scraping? {
      ReturnIsNeverBlocked(x, pid, j);
    }
  }

  lemma HandedIsScraped(x: F.Scraper, f: F.Fan)
    requires F.Sound(x, f) && F.Complete(x, f)
    ensures Handed(x, f) == F.Scraped(f)
  {
    if x.Aws? {
      assert Hashes(f.extra.batch) == F.BatchHashes(f.services);
    }
  }

  lemma DeletingIsComplete(x: F.Scraper, p: Proc, f: F.Fan)
    requires F.Sound(x, f) && Matches(x, p, f) && p.phase.Deleting? && Clean(p)
    ensures F.Complete(x, f) && p.delivered == F.Scraped(f) && p.calls == map[]
  {
    F.QuietIsComplete(x, f);
    HandedIsScraped(x, f);
    assert p.calls.Keys == {};
  }

  ghost predicate NothingMissed(x: F.Scraper, db: Database, p: Proc, f: F.Fan) {
    F.Complete(x, f) && p.delivered == F.Scraped(f) && F.Scraped(f) <= VendorHashes(db.products, p.vendor)
  }

  lemma NothingMissedNow(owner: string -> string, x: F.Scraper, pid: nat, j: Joint)
    requires pid in j.s.procs && j.s.procs[pid].phase.Deleting?
    requires ProcOk(owner, j.s.db, pid, j.s.procs[pid]) && Coupled(x, pid, j)
    ensures NothingMissed(x, j.s.db, j.s.procs[pid], j.f)
  {
    StoredIfClean(owner, j.s.db, pid, j.s.procs[pid]);
    DeletingIsComplete(x, j.s.procs[pid], j.f);
  }

  lemma DeletesWhenDeleting(s: Sys, pid: nat)
    requires Enabled(s, Do(pid, DeleteStale))
    ensures pid in s.procs && s.procs[pid].phase.Deleting?
  {
  }

  lemma StoredIfClean(owner: string -> string, db: Database, pid: nat, p: Proc)
    requires ProcOk(owner, db, pid, p) && p.phase.Deleting?
    ensures p.delivered <= VendorHashes(db.products, p.vendor) && Clean(p)
  {
    assert Sent(p.calls) == {};
  }

  /** The cleanup fires only if nothing was missed. In every interleaving, with
      marks lost and runs reaped or not: every service and region of the plan was
      fetched and handled, what the run delivered is all that was fetched and
      synthesised, and every product of it is stored. */
  lemma CleanupMeansComplete(owner: string -> string, design: Design, x: F.Scraper, pid: nat, s: Sys, moves: seq<Move>)
    requires Inv(owner, s) && JustLocked(s, pid)
    requires IsJoint(design, x, pid, Joint(s, F.Start(x)), moves)
    requires JointWellFormed(owner, design, x, pid, Joint(s, F.Start(x)), moves)
    requires Enabled(JointAfter(design, x, pid, Joint(s, F.Start(x)), moves).s, Do(pid, DeleteStale))
    ensures var j := JointAfter(design, x, pid, Joint(s, F.Start(x)), moves);
            NothingMissed(x, j.s.db, j.s.procs[pid], j.f)
  {
    var j := JointAfter(design, x, pid, Joint(s, F.Start(x)), moves);
    DeletesWhenDeleting(j.s, pid);
    InvHere(owner, design, x, pid, s, moves);
    CoupledFromLock(design, x, pid, s, moves);
    NothingMissedNow(owner, x, pid, j);
  }

  lemma InvHere(owner: string -> string, design: Design, x: F.Scraper, pid: nat, s: Sys, moves: seq<Move>)
    requires Inv(owner, s) && IsJoint(design, x, pid, Joint(s, F.Start(x)), moves)
    requires JointWellFormed(owner, design, x, pid, Joint(s, F.Start(x)), moves)
    ensures var now := JointAfter(design, x, pid, Joint(s, F.Start(x)), moves).s;
            pid in now.procs ==> ProcOk(owner, now.db, pid, now.procs[pid])
  {
    JointIsHistory(design, x, pid, Joint(s, F.Start(x)), moves);
    InvAlways(owner, design, s, Events(design, x, pid, Joint(s, F.Start(x)), moves));
  }

  lemma SyncedHere(owner: string -> string, x: F.Scraper, pid: nat, s: Sys, moves: seq<Move>)
    requires Inv(owner, s) && AllSynced(ChangedOnly, s) && IsJoint(ChangedOnly, x, pid, Joint(s, F.Start(x)), moves)
    requires JointWellFormed(owner, ChangedOnly, x, pid, Joint(s, F.Start(x)), moves)
    requires JointOrderly(ChangedOnly, x, pid, Joint(s, F.Start(x)), moves)
    ensures AllSynced(ChangedOnly, JointAfter(ChangedOnly, x, pid, Joint(s, F.Start(x)), moves).s)
  {
    JointIsHistory(ChangedOnly, x, pid, Joint(s, F.Start(x)), moves);
    SyncedAlways(owner, ChangedOnly, s, Events(ChangedOnly, x, pid, Joint(s, F.Start(x)), moves));
  }

  /** And after an orderly history everything fetched is marked, and the cleanup
      leaves the vendor with exactly that. */
  lemma CleanupMeansMarked(owner: string -> string, x: F.Scraper, pid: nat, s: Sys, moves: seq<Move>)
    requires Inv(owner, s) && AllSynced(ChangedOnly, s) && JustLocked(s, pid)
    requires IsJoint(ChangedOnly, x, pid, Joint(s, F.Start(x)), moves)
    requires JointWellFormed(owner, ChangedOnly, x, pid, Joint(s, F.Start(x)), moves)
    requires JointOrderly(ChangedOnly, x, pid, Joint(s, F.Start(x)), moves)
    requires Enabled(JointAfter(ChangedOnly, x, pid, Joint(s, F.Start(x)), moves).s, Do(pid, DeleteStale))
    ensures var j := JointAfter(ChangedOnly, x, pid, Joint(s, F.Start(x)), moves);
            var p := j.s.procs[pid];
            && F.Complete(x, j.f)
            && SeenBy(j.s.db.seen, p.run) == F.Scraped(j.f)
            && VendorHashes(Step(ChangedOnly, j.s, Do(pid, DeleteStale)).db.products, p.vendor) == F.Scraped(j.f)
  {
    var j := JointAfter(ChangedOnly, x, pid, Joint(s, F.Start(x)), moves);
    InvHere(owner, ChangedOnly, x, pid, s, moves);
    SyncedHere(owner, x, pid, s, moves);
    CleanupMeansComplete(owner, ChangedOnly, x, pid, s, moves);
    SurvivorsAreDelivered(owner, j.s.db, pid, j.s.procs[pid]);
  }

  // ---------------------------------------------------------------- what happened in the fan-out

  /** The task events of one of the two groups. */
  ghost function GroupEvents(design: Design, x: F.Scraper, pid: nat, j: Joint, moves: seq<Move>, ofRegions: bool)
    : seq<F.TaskEvent>
    requires IsJoint(design, x, pid, j, moves)
    decreases |moves|
  {
    if moves == [] then []
    else
      var m := moves[0];
      (if m.Fanned? && m.step.InGroup? && (if ofRegions then !j.f.stage.Services? else j.f.stage.Services?)
       then [m.step.e] else [])
      + GroupEvents(design, x, pid, Next(design, x, pid, j, m), moves[1..], ofRegions)
  }

  function GroupOf(f: F.Fan, ofRegions: bool): F.Group {
    if ofRegions then f.regions else f.services
  }

  function PolicyOf(x: F.Scraper, ofRegions: bool): F.Policy {
    if ofRegions then F.PerRegion else F.ServicePolicy(x)
  }

  lemma {:induction false} GroupFollowsEvents(design: Design, x: F.Scraper, pid: nat, j: Joint, moves: seq<Move>,
                                              ofRegions: bool)
    requires IsJoint(design, x, pid, j, moves)
    ensures var es := GroupEvents(design, x, pid, j, moves, ofRegions);
            && F.IsGroupRun(PolicyOf(x, ofRegions), GroupOf(j.f, ofRegions), es)
            && F.GroupAfter(PolicyOf(x, ofRegions), GroupOf(j.f, ofRegions), es)
               == GroupOf(JointAfter(design, x, pid, j, moves).f, ofRegions)
            && forall e :: e in es ==> Fanned(F.InGroup(e)) in moves
    decreases |moves|
  {
    if moves != [] {
      var m, j' := moves[0], Next(design, x, pid, j, moves[0]);
      var rest := GroupEvents(design, x, pid, j', moves[1..], ofRegions);
      GroupFollowsEvents(design, x, pid, j', moves[1..], ofRegions);
      assert forall e :: Fanned(F.InGroup(e)) in moves[1..] ==> Fanned(F.InGroup(e)) in moves;
      if m.Fanned? && m.step.InGroup? && (if ofRegions then !j.f.stage.Services? else j.f.stage.Services?) {
        assert ([m.step.e] + rest)[1..] == rest;
        assert m in moves;
      } else {
        GroupStays(design, x, pid, j, m, ofRegions);
        assert [] + rest == rest;
      }
    }
  }

  lemma GroupStays(design: Design, x: F.Scraper, pid: nat, j: Joint, m: Move, ofRegions: bool)
    requires Can(x, pid, j, m)
    requires !(m.Fanned? && m.step.InGroup? && (if ofRegions then !j.f.stage.Services? else j.f.stage.Services?))
    ensures GroupOf(Next(design, x, pid, j, m).f, ofRegions) == GroupOf(j.f, ofRegions)
  {
  }

  /** These moves fetched `batch` for the task and put it through the handler. */
  ghost predicate WasHandled(moves: seq<Move>, t: string, batch: seq<Product>, collected: bool) {
    && Fanned(F.InGroup(F.Fetched(t, batch))) in moves
    && (collected || batch == [] || Fanned(F.InGroup(F.HandlerOk(t))) in moves)
  }

  /** Said of the moves themselves: if the cleanup can fire, a fetch of every service
      and of every region succeeded, and the handler took what it brought; AWS
      collects for its services. */
  lemma CleanupMeansFetched(owner: string -> string, design: Design, x: F.Scraper, pid: nat, s: Sys, moves: seq<Move>)
    requires Inv(owner, s) && JustLocked(s, pid)
    requires IsJoint(design, x, pid, Joint(s, F.Start(x)), moves)
    requires JointWellFormed(owner, design, x, pid, Joint(s, F.Start(x)), moves)
    requires Enabled(JointAfter(design, x, pid, Joint(s, F.Start(x)), moves).s, Do(pid, DeleteStale))
    ensures var f := JointAfter(design, x, pid, Joint(s, F.Start(x)), moves).f;
            && (forall t :: t in F.Targets(x) ==>
                  t in f.services.tasks && WasHandled(moves, t, F.BatchOf(f.services.tasks[t]), x.Aws?))
            && (forall r :: r in F.RegionNames(x) ==>
                  r in f.regions.tasks && WasHandled(moves, r, F.BatchOf(f.regions.tasks[r]), false))
  {
    CleanupMeansComplete(owner, design, x, pid, s, moves);
    forall t | t in F.Targets(x) {
      DoneWasHandled(design, x, pid, Joint(s, F.Start(x)), moves, false, t);
    }
    forall r | r in F.RegionNames(x) {
      DoneWasHandled(design, x, pid, Joint(s, F.Start(x)), moves, true, r);
    }
  }

  lemma DoneWasHandled(design: Design, x: F.Scraper, pid: nat, j: Joint, moves: seq<Move>, ofRegions: bool, t: string)
    requires IsJoint(design, x, pid, j, moves)
    requires t in GroupOf(j.f, ofRegions).tasks && GroupOf(j.f, ofRegions).tasks[t].Pending?
    requires var g := GroupOf(JointAfter(design, x, pid, j, moves).f, ofRegions); t in g.tasks && g.tasks[t].Done?
    ensures var g := GroupOf(JointAfter(design, x, pid, j, moves).f, ofRegions);
            WasHandled(moves, t, F.BatchOf(g.tasks[t]), PolicyOf(x, ofRegions).Collecting?)
  {
    GroupFollowsEvents(design, x, pid, j, moves, ofRegions);
    F.TaskFate(PolicyOf(x, ofRegions), GroupOf(j.f, ofRegions), GroupEvents(design, x, pid, j, moves, ofRegions), t);
  }
}
