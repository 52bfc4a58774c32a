/** What the failure counter does not see: a GCP service the scraper never asked
    for, because discovery failed or did not resolve it (internal/scraper/gcp.go).
    A run that cleans up all the same, built step by step. */
module ScrapeDiscovery {
  import opened Catalog
  import opened BatchUpsert
  import opened ScrapeStore
  import opened ScrapeMachine
  import opened ScrapeInvariants
  import opened ScrapeSafety
  import opened ScrapeRefinement
  import opened ScrapeLoss
  import opened ScrapeJoint
  import F = ScrapeFanout

  // ---------------------------------------------------------------- joint histories by pieces

  ghost predicate Leads(x: F.Scraper, j: Joint, moves: seq<Move>, end: Joint) {
    IsJoint(ChangedOnly, x, 0, j, moves) && JointAfter(ChangedOnly, x, 0, j, moves) == end
  }

  lemma {:induction false} LeadsOn(x: F.Scraper, j: Joint, a: seq<Move>, k: Joint, b: seq<Move>, end: Joint)
    requires Leads(x, j, a, k) && Leads(x, k, b, end)
    ensures Leads(x, j, a + b, end)
    decreases |a|
  {
    if a == [] {
      assert a + b == b;
    } else {
      assert (a + b)[1..] == a[1..] + b;
      LeadsOn(x, Next(ChangedOnly, x, 0, j, a[0]), a[1..], k, b, end);
    }
  }

  lemma LeadsTwice(x: F.Scraper, j: Joint, m: Move, k: Joint, n: Move, end: Joint)
    requires Leads(x, j, [m], k) && Leads(x, k, [n], end)
    ensures Leads(x, j, [m, n], end)
  {
    LeadsOn(x, j, [m], k, [n], end);
    assert [m] + [n] == [m, n];
  }

  /** The process acts for itself or its database layer; nobody else does anything,
      and all it sends is its vendor's. */
  ghost predicate Tidy(owner: string -> string, vendor: string, m: Move) {
    match m
    case Fanned(InGroup(Fetched(_, products))) => Owned(owner, vendor, products)
    case Fanned(EndServices(batch)) => Owned(owner, vendor, batch)
    case Elsewhere(e) => e.Do? && e.pid == 0 && !e.act.Deliver?
    case _ => true
  }

  lemma {:induction false} TidyIsOrderly(owner: string -> string, x: F.Scraper, vendor: string, j: Joint,
                                         moves: seq<Move>)
    requires IsJoint(ChangedOnly, x, 0, j, moves) && 0 in j.s.procs && j.s.procs[0].vendor == vendor
    requires forall m :: m in moves ==> Tidy(owner, vendor, m)
    ensures JointWellFormed(owner, ChangedOnly, x, 0, j, moves) && JointOrderly(ChangedOnly, x, 0, j, moves)
    decreases |moves|
  {
    JointIsHistory(ChangedOnly, x, 0, j, moves);
    if moves != [] {
      var m := moves[0];
      assert Tidy(owner, vendor, m);
      var j', e := Next(ChangedOnly, x, 0, j, m), EventOf(x, 0, j, m);
      TidyEvent(owner, x, vendor, j, m);
      TidyIsOrderly(owner, x, vendor, j', moves[1..]);
      JointIsHistory(ChangedOnly, x, 0, j', moves[1..]);
      var rest := Events(ChangedOnly, x, 0, j', moves[1..]);
      if e.Some? {
        assert ([e.value] + rest)[1..] == rest;
        assert Events(ChangedOnly, x, 0, j, moves) == [e.value] + rest;
      } else {
        assert Events(ChangedOnly, x, 0, j, moves) == rest;
      }
    }
  }

  lemma TidyEvent(owner: string -> string, x: F.Scraper, vendor: string, j: Joint, m: Move)
    requires Can(x, 0, j, m) && 0 in j.s.procs && j.s.procs[0].vendor == vendor && Tidy(owner, vendor, m)
    ensures var e := EventOf(x, 0, j, m);
            e.Some? ==> e.value.Do? && e.value.pid == 0 && WellFormed(owner, j.s, e.value)
    ensures var s' := Next(ChangedOnly, x, 0, j, m).s; 0 in s'.procs && s'.procs[0].vendor == vendor
  {
    var e := EventOf(x, 0, j, m);
    if e.Some? {
      ActKeepsIdentity(ChangedOnly, j.s.db, j.s.procs[0], e.value.act);
    }
  }

  // ---------------------------------------------------------------- the witness

  /** The run: whatever discovery answered, of the services to scrape `kept` has one
      product, the others none. `missed` is a stored product that none returns. */
  datatype Case = Case(
    fixed: map<string, string>,
    discovered: Option<map<string, string>>,
    services: set<string>,
    kept: string,
    missed: Product,
    one: Product,
    clock: int,
    synthesis: F.Synthesis)

  predicate CaseOk(c: Case) {
    c.services == F.Targets(Plan(c)) && CaseFits(c)
  }

  predicate CaseFits(c: Case) {
    && c.kept in c.services && c.kept != COMPUTE_ENGINE && c.synthesis([], [])
    && c.one.vendor == c.missed.vendor && c.one.hash != c.missed.hash
  }

  function Plan(c: Case): F.Scraper {
    F.Gcp(true, c.fixed, c.discovered, c.synthesis)
  }

  /** The services once `kept` is at `task` and all but `left` have answered. */
  function ServicesAt(c: Case, task: F.Task, left: set<string>, total: nat): F.Group {
    F.Group(map t | t in c.services :: if t == c.kept then task else if t in left then F.Pending else F.Done([]),
            0, total, false, [])
  }

  function During(c: Case, stage: F.Stage, task: F.Task, left: set<string>, total: nat): F.Fan {
    F.Fan(stage, ServicesAt(c, task, left, total), F.Pending, F.Launch({}))
  }

  function Others(c: Case): set<string> {
    c.services - {c.kept}
  }

  function Locked0(c: Case): Sys {
    Sys(Database(map[c.missed.hash := Row(c.missed, c.clock)], map[], {}, map[c.missed.vendor := 0], 1, c.clock),
        map[0 := NewProc(c.missed.vendor)])
  }

  function Clocked0(c: Case): Sys {
    Sys(Tick(Locked0(c).db), map[0 := NewProc(c.missed.vendor).(phase := Clocked, start := c.clock + 1)])
  }

  function Sent0(c: Case): Sys {
    Sys(Started(c.missed, c.clock).db, map[0 := Handling(Started(c.missed, c.clock), c.kept, c.one, 0)])
  }

  function Stored0(c: Case): Sys {
    var s := Started(c.missed, c.clock);
    Sys(Stored(s, c.one, Row(c.one, c.clock + 3)), map[0 := Handling(s, c.kept, c.one, 1)])
  }

  function Marked0(c: Case): Sys {
    Sys(Stored0(c).db.(seen := {(1, c.one.hash)}),
        map[0 := Started(c.missed, c.clock).procs[0].(ingested := 1, delivered := {c.one.hash})])
  }

  function Judged0(c: Case): Sys {
    Sys(Marked0(c).db, map[0 := Marked0(c).procs[0].(phase := Judging)])
  }

  function Decided0(c: Case): Sys {
    Sys(Marked0(c).db, map[0 := Marked0(c).procs[0].(phase := Deleting, previous := 0, counted := 1)])
  }

  function StartMoves(c: Case): seq<Move> {
    [Elsewhere(Do(0, ReadClock)), Elsewhere(Do(0, StartRun))]
        + [Fanned(F.Begin), Fanned(F.InGroup(F.Fetched(c.kept, [c.one])))]
  }

  lemma TakesRun(c: Case, f: F.Fan)
    ensures Leads(Plan(c), Joint(Locked0(c), f), [Elsewhere(Do(0, ReadClock)), Elsewhere(Do(0, StartRun))],
                  Joint(Started(c.missed, c.clock), f))
  {
    var x, s := Plan(c), Started(c.missed, c.clock);
    assert s.procs == map[0 := s.procs[0]];
    assert Leads(x, Joint(Locked0(c), f), [Elsewhere(Do(0, ReadClock))], Joint(Clocked0(c), f));
    assert Leads(x, Joint(Clocked0(c), f), [Elsewhere(Do(0, StartRun))], Joint(s, f));
    LeadsTwice(x, Joint(Locked0(c), f), Elsewhere(Do(0, ReadClock)), Joint(Clocked0(c), f), Elsewhere(Do(0, StartRun)),
               Joint(s, f));
  }

  lemma Starts(c: Case)
    requires CaseOk(c)
    ensures Leads(Plan(c), Joint(Locked0(c), F.Start(Plan(c))), StartMoves(c),
                  Joint(Sent0(c), During(c, F.Services, F.Handling([c.one]), Others(c), 0)))
  {
    var f := F.Start(Plan(c));
    TakesRun(c, f);
    Fetches(c);
    LeadsOn(Plan(c), Joint(Locked0(c), f), [Elsewhere(Do(0, ReadClock)), Elsewhere(Do(0, StartRun))],
            Joint(Started(c.missed, c.clock), f), [Fanned(F.Begin), Fanned(F.InGroup(F.Fetched(c.kept, [c.one])))],
            Joint(Sent0(c), During(c, F.Services, F.Handling([c.one]), Others(c), 0)));
  }

  lemma Fetches(c: Case)
    requires CaseOk(c)
    ensures Leads(Plan(c), Joint(Started(c.missed, c.clock), F.Start(Plan(c))),
                  [Fanned(F.Begin), Fanned(F.InGroup(F.Fetched(c.kept, [c.one])))],
                  Joint(Sent0(c), During(c, F.Services, F.Handling([c.one]), Others(c), 0)))
  {
    var x, s := Plan(c), Started(c.missed, c.clock);
    var f1 := During(c, F.Services, F.Pending, Others(c), 0);
    var f2 := During(c, F.Services, F.Handling([c.one]), Others(c), 0);
    assert f1.services == F.Launch(c.services);
    assert Leads(x, Joint(s, F.Start(x)), [Fanned(F.Begin)], Joint(s, f1));
    FetchesOne(c);
    LeadsTwice(x, Joint(s, F.Start(x)), Fanned(F.Begin), Joint(s, f1), Fanned(F.InGroup(F.Fetched(c.kept, [c.one]))),
               Joint(Sent0(c), f2));
  }

  lemma BatchIsSent(c: Case)
    requires CaseFits(c)
    ensures Enabled(Started(c.missed, c.clock), Do(0, Deliver(c.kept, [c.one])))
    ensures Step(ChangedOnly, Started(c.missed, c.clock), Do(0, Deliver(c.kept, [c.one]))) == Sent0(c)
  {
    var s := Started(c.missed, c.clock);
    DeliverOne(s, c.kept, c.one);
    assert s.procs[0 := Handling(s, c.kept, c.one, 0)] == Sent0(c).procs;
  }

  lemma FetchesOne(c: Case)
    requires CaseFits(c)
    ensures Leads(Plan(c), Joint(Started(c.missed, c.clock), During(c, F.Services, F.Pending, Others(c), 0)),
                  [Fanned(F.InGroup(F.Fetched(c.kept, [c.one])))],
                  Joint(Sent0(c), During(c, F.Services, F.Handling([c.one]), Others(c), 0)))
  {
    var f1 := During(c, F.Services, F.Pending, Others(c), 0);
    var f2 := During(c, F.Services, F.Handling([c.one]), Others(c), 0);
    assert f2.services.tasks == f1.services.tasks[c.kept := F.Handling([c.one])];
    BatchIsSent(c);
  }

  lemma OneMoreAnswers(c: Case, left: set<string>, t: string)
    requires CaseFits(c) && left <= Others(c) && t in left
    ensures Leads(Plan(c), Joint(Sent0(c), During(c, F.Services, F.Handling([c.one]), left, 0)),
                  [Fanned(F.InGroup(F.Fetched(t, [])))],
                  Joint(Sent0(c), During(c, F.Services, F.Handling([c.one]), left - {t}, 0)))
  {
    var f := During(c, F.Services, F.Handling([c.one]), left, 0);
    var f' := During(c, F.Services, F.Handling([c.one]), left - {t}, 0);
    assert f'.services.tasks == f.services.tasks[t := F.Done([])];
  }

  /** The other services answer, one after the other, with nothing. */
  lemma {:induction false} OthersAnswer(c: Case, left: set<string>) returns (moves: seq<Move>)
    requires CaseOk(c) && left <= Others(c)
    ensures Leads(Plan(c), Joint(Sent0(c), During(c, F.Services, F.Handling([c.one]), left, 0)), moves,
                  Joint(Sent0(c), During(c, F.Services, F.Handling([c.one]), {}, 0)))
    ensures forall m :: m in moves ==> m.Fanned? && m.step.InGroup? && m.step.e.Fetched? && m.step.e.products == []
    decreases |left|
  {
    if left == {} {
      moves := [];
    } else {
      var t :| t in left;
      var rest := OthersAnswer(c, left - {t});
      OneMoreAnswers(c, left, t);
      LeadsOn(Plan(c), Joint(Sent0(c), During(c, F.Services, F.Handling([c.one]), left, 0)),
              [Fanned(F.InGroup(F.Fetched(t, [])))],
              Joint(Sent0(c), During(c, F.Services, F.Handling([c.one]), left - {t}, 0)), rest,
              Joint(Sent0(c), During(c, F.Services, F.Handling([c.one]), {}, 0)));
      moves := [Fanned(F.InGroup(F.Fetched(t, [])))] + rest;
    }
  }

  function HandleMoves(c: Case): seq<Move> {
    [Elsewhere(Do(0, UpsertChunk(c.kept))), Fanned(F.InGroup(F.HandlerOk(c.kept)))]
  }

  lemma Stores(c: Case, f: F.Fan)
    requires CaseFits(c)
    ensures Leads(Plan(c), Joint(Sent0(c), f), [Elsewhere(Do(0, UpsertChunk(c.kept)))], Joint(Stored0(c), f))
  {
    var s := Started(c.missed, c.clock);
    DeliverAndUpsert(s, c.kept, c.one, Row(c.one, c.clock + 3));
    assert s.procs[0 := Handling(s, c.kept, c.one, 0)] == Sent0(c).procs;
    assert s.procs[0 := Handling(s, c.kept, c.one, 1)] == Stored0(c).procs;
  }

  lemma BatchIsMarked(c: Case)
    requires CaseFits(c)
    ensures Enabled(Stored0(c), Do(0, MarkBatch(c.kept)))
    ensures Step(ChangedOnly, Stored0(c), Do(0, MarkBatch(c.kept))) == Marked0(c)
  {
    MarkOne(Stored0(c), c.kept, c.one);
    assert Marked0(c).procs[0].delivered == {c.one.hash} == Stored0(c).procs[0].delivered;
    assert Stored0(c).db.seen + {(1, c.one.hash)} == {(1, c.one.hash)};
    assert Stored0(c).procs[0 := Marked0(c).procs[0]] == Marked0(c).procs;
  }

  lemma Marks(c: Case)
    requires CaseFits(c)
    ensures Leads(Plan(c), Joint(Stored0(c), During(c, F.Services, F.Handling([c.one]), {}, 0)),
                  [Fanned(F.InGroup(F.HandlerOk(c.kept)))],
                  Joint(Marked0(c), During(c, F.Services, F.Done([c.one]), {}, 1)))
  {
    var f1, f2 := During(c, F.Services, F.Handling([c.one]), {}, 0), During(c, F.Services, F.Done([c.one]), {}, 1);
    assert f2.services.tasks == f1.services.tasks[c.kept := F.Done([c.one])];
    BatchIsMarked(c);
  }

  lemma Handles(c: Case)
    requires CaseOk(c)
    ensures Leads(Plan(c), Joint(Sent0(c), During(c, F.Services, F.Handling([c.one]), {}, 0)), HandleMoves(c),
                  Joint(Marked0(c), During(c, F.Services, F.Done([c.one]), {}, 1)))
  {
    var f1, f2 := During(c, F.Services, F.Handling([c.one]), {}, 0), During(c, F.Services, F.Done([c.one]), {}, 1);
    Stores(c, f1);
    Marks(c);
    LeadsTwice(Plan(c), Joint(Sent0(c), f1), Elsewhere(Do(0, UpsertChunk(c.kept))), Joint(Stored0(c), f1),
               Fanned(F.InGroup(F.HandlerOk(c.kept))), Joint(Marked0(c), f2));
  }

  function EndMoves(): seq<Move> {
    [Fanned(F.EndServices([])), Returns] + [Elsewhere(Do(0, ReadPrevious(None))), Elsewhere(Do(0, CountSeen))]
  }

  function Quiet(c: Case): F.Fan {
    During(c, F.Over(F.Returned(0)), F.Done([c.one]), {}, 1).(extra := F.Done([]))
  }

  lemma Ends(c: Case)
    requires CaseOk(c)
    ensures Leads(Plan(c), Joint(Marked0(c), During(c, F.Services, F.Done([c.one]), {}, 1)), EndMoves(),
                  Joint(Decided0(c), Quiet(c)))
  {
    ReturnsQuietly(c);
    GuardsLetPass(c, Quiet(c));
    LeadsOn(Plan(c), Joint(Marked0(c), During(c, F.Services, F.Done([c.one]), {}, 1)),
            [Fanned(F.EndServices([])), Returns], Joint(Judged0(c), Quiet(c)),
            [Elsewhere(Do(0, ReadPrevious(None))), Elsewhere(Do(0, CountSeen))], Joint(Decided0(c), Quiet(c)));
  }

  lemma ReturnsQuietly(c: Case)
    requires CaseFits(c)
    ensures Leads(Plan(c), Joint(Marked0(c), During(c, F.Services, F.Done([c.one]), {}, 1)),
                  [Fanned(F.EndServices([])), Returns], Joint(Judged0(c), Quiet(c)))
  {
    var judged := Judged0(c);
    var x, f := Plan(c), During(c, F.Services, F.Done([c.one]), {}, 1);
    assert F.AllReturned(f.services) && !F.Errors(f.services);
    assert Marked0(c).procs[0 := judged.procs[0]] == judged.procs;
    assert Leads(x, Joint(Marked0(c), f), [Fanned(F.EndServices([]))], Joint(Marked0(c), Quiet(c)));
    assert Leads(x, Joint(Marked0(c), Quiet(c)), [Returns], Joint(judged, Quiet(c)));
    LeadsTwice(x, Joint(Marked0(c), f), Fanned(F.EndServices([])), Joint(Marked0(c), Quiet(c)), Returns,
               Joint(judged, Quiet(c)));
  }

  lemma GuardsLetPass(c: Case, f: F.Fan)
    requires c.one.hash != c.missed.hash
    ensures Leads(Plan(c), Joint(Judged0(c), f),
                  [Elsewhere(Do(0, ReadPrevious(None))), Elsewhere(Do(0, CountSeen))], Joint(Decided0(c), f))
  {
    var x, judged, p := Plan(c), Judged0(c), Judged0(c).procs[0];
    var counting := Sys(judged.db, map[0 := p.(phase := Counting, previous := 0)]);
    assert judged.procs[0 := counting.procs[0]] == counting.procs;
    assert counting.procs[0 := Decided0(c).procs[0]] == Decided0(c).procs;
    MarkedIff({(1, c.one.hash)}, 1, c.one.hash);
    assert SeenBy(judged.db.seen, 1) == {c.one.hash};
    assert Leads(x, Joint(judged, f), [Elsewhere(Do(0, ReadPrevious(None)))], Joint(counting, f));
    assert Leads(x, Joint(counting, f), [Elsewhere(Do(0, CountSeen))], Joint(Decided0(c), f));
    LeadsTwice(x, Joint(judged, f), Elsewhere(Do(0, ReadPrevious(None))), Joint(counting, f),
               Elsewhere(Do(0, CountSeen)), Joint(Decided0(c), f));
  }

  // ---------------------------------------------------------------- the results

  /** An orderly joint history, from taking the lock, after which the cleanup can fire. */
  ghost predicate CleanupRun(owner: string -> string, x: F.Scraper, pid: nat, s: Sys, moves: seq<Move>) {
    var j := Joint(s, F.Start(x));
    && Inv(owner, s) && AllSynced(ChangedOnly, s) && JustLocked(s, pid) && IsJoint(ChangedOnly, x, pid, j, moves)
    && JointWellFormed(owner, ChangedOnly, x, pid, j, moves) && JointOrderly(ChangedOnly, x, pid, j, moves)
    && Enabled(JointAfter(ChangedOnly, x, pid, j, moves).s, Do(pid, DeleteStale))
  }

  lemma LockedIsInitial(owner: string -> string, c: Case)
    requires owner(c.missed.hash) == c.missed.vendor
    ensures Inv(owner, Locked0(c)) && AllSynced(ChangedOnly, Locked0(c))
  {
    var boot := Boot(map[c.missed.hash := Row(c.missed, c.clock)], c.clock);
    BootHolds(owner, ChangedOnly, boot.db.products, c.clock);
    StepKeepsInv(owner, ChangedOnly, boot, Acquire(0, c.missed.vendor));
    StepKeepsSynced(owner, ChangedOnly, boot, Acquire(0, c.missed.vendor));
    assert Step(ChangedOnly, boot, Acquire(0, c.missed.vendor)) == Locked0(c);
  }

  function Journey(c: Case, rest: seq<Move>): seq<Move> {
    StartMoves(c) + rest + HandleMoves(c) + EndMoves()
  }

  lemma WholeRun(c: Case) returns (rest: seq<Move>)
    requires CaseOk(c)
    ensures Leads(Plan(c), Joint(Locked0(c), F.Start(Plan(c))), Journey(c, rest), Joint(Decided0(c), Quiet(c)))
    ensures forall m :: m in rest ==> m.Fanned? && m.step.InGroup? && m.step.e.Fetched? && m.step.e.products == []
  {
    var x, j := Plan(c), Joint(Locked0(c), F.Start(Plan(c)));
    var j1 := Joint(Sent0(c), During(c, F.Services, F.Handling([c.one]), Others(c), 0));
    var j2 := Joint(Sent0(c), During(c, F.Services, F.Handling([c.one]), {}, 0));
    var j3 := Joint(Marked0(c), During(c, F.Services, F.Done([c.one]), {}, 1));
    Starts(c);
    rest := OthersAnswer(c, Others(c));
    Handles(c);
    Ends(c);
    FourParts(x, j, StartMoves(c), j1, rest, j2, HandleMoves(c), j3, EndMoves(), Joint(Decided0(c), Quiet(c)));
  }

  lemma FourParts(x: F.Scraper, j: Joint, a: seq<Move>, j1: Joint, b: seq<Move>, j2: Joint, d: seq<Move>, j3: Joint,
                  e: seq<Move>, end: Joint)
    requires Leads(x, j, a, j1) && Leads(x, j1, b, j2) && Leads(x, j2, d, j3) && Leads(x, j3, e, end)
    ensures Leads(x, j, a + b + d + e, end)
  {
    LeadsOn(x, j, a, j1, b, j2);
    LeadsOn(x, j, a + b, j2, d, j3);
    LeadsOn(x, j, a + b + d, j3, e, end);
  }

  lemma AllTidy(owner: string -> string, c: Case, rest: seq<Move>)
    requires CaseOk(c) && owner(c.one.hash) == c.one.vendor
    requires forall m :: m in rest ==> m.Fanned? && m.step.InGroup? && m.step.e.Fetched? && m.step.e.products == []
    ensures forall m :: m in Journey(c, rest) ==> Tidy(owner, c.missed.vendor, m)
  {
    forall m | m in Journey(c, rest) ensures Tidy(owner, c.missed.vendor, m) {
      assert m in StartMoves(c) || m in rest || m in HandleMoves(c) || m in EndMoves();
    }
  }

  /** No failure reported on the services known, and the cleanup, next, deletes
      `missed`. */
  ghost predicate LosesMissed(c: Case, j: Joint) {
    && j.f.stage == F.Over(F.Returned(0)) && j.f.services.tasks.Keys == c.services
    && c.missed.hash in j.s.db.products && j.s.db.products[c.missed.hash].product == c.missed
    && Enabled(j.s, Do(0, DeleteStale))
    && c.missed.hash !in Step(ChangedOnly, j.s, Do(0, DeleteStale)).db.products
  }

  lemma UnseenProductIsDeleted(owner: string -> string, c: Case) returns (moves: seq<Move>)
    requires CaseOk(c) && owner(c.one.hash) == owner(c.missed.hash) == c.missed.vendor
    ensures CleanupRun(owner, Plan(c), 0, Locked0(c), moves)
    ensures LosesMissed(c, JointAfter(ChangedOnly, Plan(c), 0, Joint(Locked0(c), F.Start(Plan(c))), moves))
  {
    var rest := WholeRun(c);
    moves := Journey(c, rest);
    CleanupIsNext(owner, c, rest);
    DeletedNow(c);
  }

  /** Any service that is neither static nor discovered, with a stored product of
      its own: a run can fetch all it knows of, report no failure, pass every guard,
      and delete that product. */
  lemma MissedServiceIsDeleted(owner: string -> string, c: Case, name: string) returns (moves: seq<Move>)
    requires CaseOk(c) && owner(c.one.hash) == owner(c.missed.hash) == c.missed.vendor
    requires name !in c.fixed && (c.discovered.Some? ==> name !in c.discovered.value) && c.missed.service == name
    ensures CleanupRun(owner, Plan(c), 0, Locked0(c), moves)
    ensures var j := JointAfter(ChangedOnly, Plan(c), 0, Joint(Locked0(c), F.Start(Plan(c))), moves);
            LosesMissed(c, j) && name !in j.f.services.tasks
  {
    moves := UnseenProductIsDeleted(owner, c);
  }

  lemma CleanupIsNext(owner: string -> string, c: Case, rest: seq<Move>)
    requires CaseOk(c) && owner(c.one.hash) == owner(c.missed.hash) == c.missed.vendor
    requires Leads(Plan(c), Joint(Locked0(c), F.Start(Plan(c))), Journey(c, rest), Joint(Decided0(c), Quiet(c)))
    requires forall m :: m in rest ==> m.Fanned? && m.step.InGroup? && m.step.e.Fetched? && m.step.e.products == []
    ensures CleanupRun(owner, Plan(c), 0, Locked0(c), Journey(c, rest))
  {
    LockedIsInitial(owner, c);
    AllTidy(owner, c, rest);
    TidyIsOrderly(owner, Plan(c), c.missed.vendor, Joint(Locked0(c), F.Start(Plan(c))), Journey(c, rest));
    DeletedNow(c);
  }

  lemma DeletedNow(c: Case)
    requires CaseFits(c)
    ensures LosesMissed(c, Joint(Decided0(c), Quiet(c)))
  {
    assert c.missed.hash in StaleHashes(ChangedOnly, Decided0(c).db, c.missed.vendor, 1, c.clock + 1);
  }
}
