/** The three scrapers as state machines (internal/scraper/aws.go, azure.go,
    gcp.go): task groups whose goroutines interleave freely, and the steps a
    scraper takes around them. */
module ScrapeFanout {
  import opened Catalog

  // ---------------------------------------------------------------- task groups

  /** `Broken` is a task that returned an error to the errgroup. */
  datatype Task =
    | Pending
    | Handling(batch: seq<Product>)
    | Done(batch: seq<Product>)
    | Failed
    | Broken

  /** Azure and GCP run the handler inside each service task and let its error
      abort the group. AWS collects the products of its services for one later
      handler call, and swallows a handler error of an EC2 region. */
  datatype Policy = PerService | Collecting | PerRegion

  /** `failed` and `total` are the counters of the code. */
  datatype Group = Group(
    tasks: map<string, Task>,
    failed: nat,
    total: nat,
    cancelled: bool,
    collected: seq<Product>)

  datatype TaskEvent =
    | CancelParent
    | FetchFails(task: string)
    | Fetched(task: string, products: seq<Product>)
    | HandlerOk(task: string)
    | HandlerErr(task: string)

  predicate GroupCan(g: Group, e: TaskEvent) {
    match e
    case CancelParent => true
    case FetchFails(t) => t in g.tasks && g.tasks[t].Pending?
    case Fetched(t, _) => t in g.tasks && g.tasks[t].Pending?
    case HandlerOk(t) => t in g.tasks && g.tasks[t].Handling?
    case HandlerErr(t) => t in g.tasks && g.tasks[t].Handling?
  }

  function GroupStep(policy: Policy, g: Group, e: TaskEvent): Group
    requires GroupCan(g, e)
  {
    match e
    case CancelParent => g.(cancelled := true)
    case FetchFails(t) =>
      if policy.PerService? && g.cancelled then
        g.(tasks := g.tasks[t := Broken])
      else
        g.(tasks := g.tasks[t := Failed], failed := g.failed + 1)
    case Fetched(t, products) =>
      if policy.Collecting? then
        g.(tasks := g.tasks[t := Done(products)], collected := g.collected + products)
      else if |products| > 0 then
        g.(tasks := g.tasks[t := Handling(products)])
      else
        g.(tasks := g.tasks[t := Done([])])
    case HandlerOk(t) =>
      g.(tasks := g.tasks[t := Done(g.tasks[t].batch)], total := g.total + |g.tasks[t].batch|)
    case HandlerErr(t) =>
      if policy.PerRegion? then
        g.(tasks := g.tasks[t := Failed], failed := g.failed + 1)
      else
        g.(tasks := g.tasks[t := Broken], cancelled := true)
  }

  function Launch(targets: set<string>): Group {
    Group(map t | t in targets :: Pending, 0, 0, false, [])
  }

  /** errgroup.Wait returns once every task has. */
  predicate AllReturned(g: Group) {
    forall t :: t in g.tasks ==> !g.tasks[t].Pending? && !g.tasks[t].Handling?
  }

  /** The error Wait reports. */
  predicate Errors(g: Group) {
    exists t :: t in g.tasks && g.tasks[t].Broken?
  }

  function FailedTasks(g: Group): set<string> {
    set t | t in g.tasks && g.tasks[t].Failed?
  }

  predicate AllDone(targets: set<string>, g: Group) {
    g.tasks.Keys == targets && forall t :: t in targets ==> g.tasks[t].Done?
  }

  function BatchOf(task: Task): seq<Product> {
    if task.Handling? || task.Done? then task.batch else []
  }

  /** The hashes of the batches fetched and not failed since. */
  function BatchHashes(g: Group): set<string> {
    set t, p | t in g.tasks && p in BatchOf(g.tasks[t]) :: p.hash
  }

  // ---------------------------------------------------------------- scrapers

  /** Discovered services are merged under the static ones; a failed discovery
      is logged and leaves the static list alone. */
  function GcpTargets(fixed: map<string, string>, discovered: Option<map<string, string>>)
    : (targets: map<string, string>)
    ensures fixed.Keys <= targets.Keys
    ensures forall name :: name in fixed ==> targets[name] == fixed[name]
    ensures forall name :: name in targets && name !in fixed ==>
              discovered.Some? && name in discovered.value && targets[name] == discovered.value[name]
    ensures discovered.Some? ==> discovered.value.Keys <= targets.Keys
  {
    match discovered
    case None => fixed
    case Some(found) => found + fixed
  }

  /** The machine types that may come out of the compute products; map iteration
      leaves their order open. */
  type Synthesis = (seq<Product>, seq<Product>) -> bool

  /** A scraper and what the world will answer its one-off requests: the service
      discovery (GCP), the EC2 region index (AWS); None when they fail. */
  datatype Scraper =
    | Azure(services: set<string>)
    | Gcp(hasKey: bool, fixed: map<string, string>, discovered: Option<map<string, string>>, synthesis: Synthesis)
    | Aws(offers: set<string>, regions: Option<set<string>>)

  function ServicePolicy(x: Scraper): (policy: Policy)
    ensures x.Azure? || x.Gcp? ==> policy == PerService
    ensures x.Aws? ==> policy == Collecting
  {
    if x.Aws? then Collecting else PerService
  }

  function Targets(x: Scraper): (targets: set<string>)
    ensures x.Azure? ==> targets == x.services
    ensures x.Aws? ==> targets == x.offers
    ensures x.Gcp? && x.discovered.None? ==> targets == x.fixed.Keys
    ensures x.Gcp? && x.discovered.Some? ==> targets == x.fixed.Keys + x.discovered.value.Keys
  {
    match x
    case Azure(services) => services
    case Gcp(_, fixed, discovered, _) => GcpTargets(fixed, discovered).Keys
    case Aws(offers, _) => offers
  }

  function RegionNames(x: Scraper): (names: set<string>)
    ensures x.Aws? && x.regions.Some? ==> names == x.regions.value
    ensures !x.Aws? || x.regions.None? ==> names == {}
  {
    if x.Aws? && x.regions.Some? then x.regions.value else {}
  }

  function ComputeProducts(services: Group): seq<Product> {
    if COMPUTE_ENGINE in services.tasks then BatchOf(services.tasks[COMPUTE_ENGINE]) else []
  }

  /** What goes through the handler between the groups: the collected AWS
      products, the synthesised GCP machine types. */
  predicate IsExtra(x: Scraper, services: Group, batch: seq<Product>) {
    match x
    case Azure(_) => batch == []
    case Gcp(_, _, _, synthesis) => synthesis(ComputeProducts(services), batch)
    case Aws(_, _) => batch == services.collected
  }

  /** What ScrapeWithHandler reports: an error, or the value FailedServices() has
      when it returns. */
  datatype Report = Error | Returned(failedServices: nat)

  datatype Stage = Setup | Services | Extra | Index | Regions | Over(report: Report)

  /** One ScrapeWithHandler in progress; `extra` is the call between the groups. */
  datatype Fan = Fan(stage: Stage, services: Group, extra: Task, regions: Group)

  datatype FanEvent =
    | Begin
    | InGroup(e: TaskEvent)
    | EndServices(batch: seq<Product>)
    | ExtraOk
    | ExtraErr
    | ReadIndex
    | EndRegions

  function Start(x: Scraper): Fan {
    Fan(Setup, Launch(Targets(x)), Pending, Launch(RegionNames(x)))
  }

  predicate FanCan(x: Scraper, f: Fan, e: FanEvent) {
    match e
    case Begin => f.stage.Setup?
    case InGroup(e) => (f.stage.Services? && GroupCan(f.services, e)) || (f.stage.Regions? && GroupCan(f.regions, e))
    case EndServices(batch) =>
      f.stage.Services? && AllReturned(f.services) && (Errors(f.services) || IsExtra(x, f.services, batch))
    case ExtraOk => f.stage.Extra? && f.extra.Handling?
    case ExtraErr => f.stage.Extra? && f.extra.Handling?
    case ReadIndex => f.stage.Index?
    case EndRegions => f.stage.Regions? && AllReturned(f.regions)
  }

  function AfterExtra(x: Scraper, services: Group): Stage {
    if x.Aws? then Index else Over(Returned(services.failed))
  }

  predicate AllRegionsFailed(regions: Group) {
    regions.failed > 0 && regions.total == 0
  }

  function FanStep(x: Scraper, f: Fan, e: FanEvent): Fan
    requires FanCan(x, f, e)
  {
    match e
    case Begin => f.(stage := if x.Gcp? && !x.hasKey then Over(Error) else Services)
    case InGroup(e) =>
      if f.stage.Services? then f.(services := GroupStep(ServicePolicy(x), f.services, e))
      else f.(regions := GroupStep(PerRegion, f.regions, e))
    case EndServices(batch) =>
      if Errors(f.services) then f.(stage := Over(Error))
      else if |batch| == 0 then f.(stage := AfterExtra(x, f.services), extra := Done([]))
      else f.(stage := Extra, extra := Handling(batch))
    case ExtraOk => f.(stage := AfterExtra(x, f.services), extra := Done(f.extra.batch))
    case ExtraErr => f.(stage := Over(Error), extra := Broken)
    case ReadIndex => f.(stage := if x.Aws? && x.regions.Some? then Regions else Over(Error))
    case EndRegions =>
      f.(stage := Over(if AllRegionsFailed(f.regions) then Error else Returned(f.services.failed + f.regions.failed)))
  }

  // ---------------------------------------------------------------- accounts of a group

  ghost predicate Accounted(policy: Policy, targets: set<string>, g: Group) {
    && g.tasks.Keys == targets
    && g.failed == |FailedTasks(g)|
    && (policy.Collecting? ==> forall t :: t in g.tasks ==> !g.tasks[t].Handling?)
    && (forall t :: t in g.tasks && g.tasks[t].Handling? ==> g.tasks[t].batch != [])
    && (policy.Collecting? ==> Hashes(g.collected) == BatchHashes(g))
    && (!policy.PerService? ==> !Errors(g))
    && (!policy.Collecting? ==> CountsProducts(g))
  }

  /** The product counter is zero exactly if every task done so far had nothing. */
  ghost predicate CountsProducts(g: Group) {
    g.total == 0 <==> forall t :: t in g.tasks && g.tasks[t].Done? ==> g.tasks[t].batch == []
  }

  lemma StepCountsProducts(policy: Policy, g: Group, e: TaskEvent)
    requires GroupCan(g, e) && !policy.Collecting? && CountsProducts(g)
    requires forall t :: t in g.tasks && g.tasks[t].Handling? ==> g.tasks[t].batch != []
    ensures CountsProducts(GroupStep(policy, g, e))
  {
    var g' := GroupStep(policy, g, e);
    if e.HandlerOk? {
      assert g'.tasks[e.task].Done? && g'.tasks[e.task].batch != [];
    } else if !e.CancelParent? {
      assert !g.tasks[e.task].Done? && (g'.tasks[e.task].Done? ==> g'.tasks[e.task].batch == []);
      assert forall t :: t in g.tasks && t != e.task ==> g'.tasks[t] == g.tasks[t];
    }
  }

  lemma OneMoreFailure(g: Group, t: string)
    requires t in g.tasks && !g.tasks[t].Failed?
    ensures FailedTasks(g.(tasks := g.tasks[t := Failed])) == FailedTasks(g) + {t}
    ensures t !in FailedTasks(g)
  {
  }

  lemma NoNewFailure(g: Group, t: string, task: Task)
    requires t in g.tasks && !g.tasks[t].Failed? && !task.Failed?
    ensures FailedTasks(g.(tasks := g.tasks[t := task])) == FailedTasks(g)
  {
  }

  lemma StepCountsFailures(policy: Policy, g: Group, e: TaskEvent)
    requires GroupCan(g, e) && g.failed == |FailedTasks(g)|
    ensures GroupStep(policy, g, e).failed == |FailedTasks(GroupStep(policy, g, e))|
  {
    var g' := GroupStep(policy, g, e);
    if e.CancelParent? {
      assert FailedTasks(g') == FailedTasks(g);
    } else {
      var task := g'.tasks[e.task];
      if task.Failed? {
        OneMoreFailure(g, e.task);
      } else {
        NoNewFailure(g, e.task, task);
      }
      assert FailedTasks(g') == FailedTasks(g.(tasks := g.tasks[e.task := task]));
    }
  }

  /** A task that holds no batch yet gets one. */
  lemma BatchArrives(g: Group, g': Group, t: string)
    requires t in g.tasks && BatchOf(g.tasks[t]) == []
    requires t in g'.tasks && g'.tasks == g.tasks[t := g'.tasks[t]]
    ensures BatchHashes(g') == BatchHashes(g) + Hashes(BatchOf(g'.tasks[t]))
  {
    forall h ensures h in BatchHashes(g') <==> h in BatchHashes(g) + Hashes(BatchOf(g'.tasks[t])) {
      if h in BatchHashes(g) {
        var u, p :| u in g.tasks && p in BatchOf(g.tasks[u]) && p.hash == h;
        assert u != t && g'.tasks[u] == g.tasks[u] && p in BatchOf(g'.tasks[u]);
      }
      if h in Hashes(BatchOf(g'.tasks[t])) {
        var p :| p in BatchOf(g'.tasks[t]) && p.hash == h;
      }
      if h in BatchHashes(g') {
        var u, p :| u in g'.tasks && p in BatchOf(g'.tasks[u]) && p.hash == h;
        if u != t {
          assert p in BatchOf(g.tasks[u]);
        }
      }
    }
  }

  lemma BatchStays(g: Group, g': Group)
    requires g'.tasks.Keys == g.tasks.Keys
    requires forall t :: t in g.tasks ==> BatchOf(g'.tasks[t]) == BatchOf(g.tasks[t])
    ensures BatchHashes(g') == BatchHashes(g)
  {
  }

  /** What a group event does to the batches held, unless it drops one. */
  lemma StepBatches(policy: Policy, g: Group, e: TaskEvent)
    requires GroupCan(g, e) && !e.HandlerErr?
    ensures BatchHashes(GroupStep(policy, g, e)) == BatchHashes(g) + if e.Fetched? then Hashes(e.products) else {}
  {
    var g' := GroupStep(policy, g, e);
    if e.Fetched? {
      BatchArrives(g, g', e.task);
      assert BatchOf(g'.tasks[e.task]) == e.products;
    } else {
      BatchStays(g, g');
    }
  }

  lemma CollectedSoFar(g: Group, e: TaskEvent)
    requires GroupCan(g, e) && Hashes(g.collected) == BatchHashes(g)
    requires forall t :: t in g.tasks ==> !g.tasks[t].Handling?
    ensures var g' := GroupStep(Collecting, g, e); Hashes(g'.collected) == BatchHashes(g')
  {
    StepBatches(Collecting, g, e);
    if e.Fetched? {
      HashesConcat(g.collected, e.products);
    }
  }

  lemma OthersStay(policy: Policy, g: Group, e: TaskEvent, t: string)
    requires GroupCan(g, e) && t in g.tasks
    ensures var task := GroupStep(policy, g, e).tasks[t];
            && (task.Handling? && policy.Collecting? ==> g.tasks[t].Handling?)
            && (task.Broken? && !policy.PerService? ==> g.tasks[t].Broken? || g.tasks[t].Handling?)
            && (task.Broken? && policy.PerRegion? ==> g.tasks[t].Broken?)
  {
  }

  lemma StepKeepsAccounts(policy: Policy, targets: set<string>, g: Group, e: TaskEvent)
    requires Accounted(policy, targets, g) && GroupCan(g, e)
    ensures Accounted(policy, targets, GroupStep(policy, g, e))
  {
    StepCountsFailures(policy, g, e);
    var g' := GroupStep(policy, g, e);
    forall t | t in g'.tasks
      ensures policy.Collecting? ==> !g'.tasks[t].Handling?
      ensures !policy.PerService? ==> !g'.tasks[t].Broken?
    {
      OthersStay(policy, g, e, t);
    }
    if policy.Collecting? {
      CollectedSoFar(g, e);
    } else {
      StepCountsProducts(policy, g, e);
    }
  }

  lemma LaunchAccounted(policy: Policy, targets: set<string>)
    ensures Accounted(policy, targets, Launch(targets))
    ensures BatchHashes(Launch(targets)) == {}
  {
    var g := Launch(targets);
    assert FailedTasks(g) == {};
    assert BatchHashes(g) == {};
  }

  // ---------------------------------------------------------------- accounts of a scraper

  /** The services are over, without error, and so is the call after them. */
  ghost predicate ServicesPassed(x: Scraper, f: Fan) {
    && AllReturned(f.services) && !Errors(f.services)
    && f.extra.Done? && IsExtra(x, f.services, f.extra.batch)
  }

  ghost predicate Sound(x: Scraper, f: Fan) {
    && Accounted(ServicePolicy(x), Targets(x), f.services)
    && Accounted(PerRegion, RegionNames(x), f.regions)
    && (f.stage.Setup? ==> f == Start(x))
    && (f.stage.Setup? || f.stage.Services? ==> f.extra.Pending?)
    && (!f.stage.Regions? && !f.stage.Over? ==> f.regions == Launch(RegionNames(x)))
    && (x.Gcp? && !x.hasKey ==> f.stage.Setup? || f.stage == Over(Error))
    && match f.stage
       case Setup => true
       case Services => true
       case Extra =>
         AllReturned(f.services) && !Errors(f.services) && f.extra.Handling? && IsExtra(x, f.services, f.extra.batch)
       case Index => x.Aws? && ServicesPassed(x, f)
       case Regions => x.Aws? && x.regions.Some? && ServicesPassed(x, f)
       case Over(Error) =>
         || (x.Gcp? && !x.hasKey) || Errors(f.services) || f.extra.Broken? || (x.Aws? && x.regions.None?)
         || (x.Aws? && AllReturned(f.regions) && AllRegionsFailed(f.regions))
       case Over(Returned(n)) =>
         && ServicesPassed(x, f)
         && n == f.services.failed + f.regions.failed
         && (x.Aws? ==> x.regions.Some? && AllReturned(f.regions) && !AllRegionsFailed(f.regions))
         && (!x.Aws? ==> f.regions == Launch({}))
         && (x.Gcp? ==> x.hasKey)
  }

  lemma StartSound(x: Scraper)
    ensures Sound(x, Start(x))
  {
    LaunchAccounted(ServicePolicy(x), Targets(x));
    LaunchAccounted(PerRegion, RegionNames(x));
  }

  lemma FanStepKeepsSound(x: Scraper, f: Fan, e: FanEvent)
    requires Sound(x, f) && FanCan(x, f, e)
    ensures Sound(x, FanStep(x, f, e))
  {
    match e
    case InGroup(e) =>
      if f.stage.Services? {
        StepKeepsAccounts(ServicePolicy(x), Targets(x), f.services, e);
      } else {
        StepKeepsAccounts(PerRegion, RegionNames(x), f.regions, e);
      }
    case _ =>
  }

  /** Nothing was missed: every target of the plan was fetched and handled, every
      EC2 region of the index too, and so was the call between them. */
  ghost predicate Complete(x: Scraper, f: Fan) {
    && AllDone(Targets(x), f.services) && AllDone(RegionNames(x), f.regions)
    && f.extra.Done? && IsExtra(x, f.services, f.extra.batch)
    && (x.Gcp? ==> x.hasKey) && (x.Aws? ==> x.regions.Some?)
  }

  /** The hashes of everything a scraper fetched or synthesised. */
  function Scraped(f: Fan): set<string> {
    BatchHashes(f.services) + Hashes(BatchOf(f.extra)) + BatchHashes(f.regions)
  }

  lemma NoFailureAllDone(policy: Policy, targets: set<string>, g: Group)
    requires Accounted(policy, targets, g) && AllReturned(g) && !Errors(g) && g.failed == 0
    ensures AllDone(targets, g)
  {
    assert FailedTasks(g) == {};
    forall t | t in targets ensures g.tasks[t].Done? {
      assert t !in FailedTasks(g);
    }
  }

  /** A report without error and with the counter at zero is complete. */
  lemma QuietIsComplete(x: Scraper, f: Fan)
    requires Sound(x, f) && f.stage == Over(Returned(0))
    ensures Complete(x, f)
  {
    NoFailureAllDone(ServicePolicy(x), Targets(x), f.services);
    NoFailureAllDone(PerRegion, RegionNames(x), f.regions);
  }

  /** When a scraper reports an error, said of its tasks: the API key was missing, a
      service task or the call between the groups broke, the EC2 region index could
      not be had, or some EC2 region failed and no other brought a product. */
  lemma ReportsErrorIff(x: Scraper, f: Fan)
    requires Sound(x, f) && f.stage.Over?
    ensures f.stage.report.Error? <==>
              || (x.Gcp? && !x.hasKey)
              || (exists t :: t in f.services.tasks && f.services.tasks[t].Broken?)
              || f.extra.Broken?
              || (x.Aws? && x.regions.None?)
              || (x.Aws? && (exists r :: r in f.regions.tasks && f.regions.tasks[r].Failed?)
                  && forall r :: r in f.regions.tasks ==> f.regions.tasks[r].Failed? || f.regions.tasks[r] == Done([]))
  {
    RegionsAllFailedIff(f.regions, RegionNames(x));
    if f.stage.report.Returned? {
      assert !Errors(f.services);
    }
  }

  lemma RegionsAllFailedIff(g: Group, names: set<string>)
    requires Accounted(PerRegion, names, g)
    ensures AllReturned(g) && AllRegionsFailed(g) <==>
              && (exists r :: r in g.tasks && g.tasks[r].Failed?)
              && forall r :: r in g.tasks ==> g.tasks[r].Failed? || g.tasks[r] == Done([])
  {
    if r :| r in g.tasks && g.tasks[r].Failed? {
      assert r in FailedTasks(g);
      assert |FailedTasks(g)| > 0;
    } else {
      assert FailedTasks(g) == {};
    }
    assert !Errors(g);
  }

  // ---------------------------------------------------------------- what happened to a task

  ghost predicate IsGroupRun(policy: Policy, g: Group, events: seq<TaskEvent>)
    decreases |events|
  {
    events == [] || (GroupCan(g, events[0]) && IsGroupRun(policy, GroupStep(policy, g, events[0]), events[1..]))
  }

  ghost function GroupAfter(policy: Policy, g: Group, events: seq<TaskEvent>): Group
    requires IsGroupRun(policy, g, events)
    decreases |events|
  {
    if events == [] then g else GroupAfter(policy, GroupStep(policy, g, events[0]), events[1..])
  }

  /** From `was`, these events made the task what it is. */
  ghost predicate Explains(policy: Policy, events: seq<TaskEvent>, t: string, was: Task, task: Task) {
    match was
    case Pending =>
      && (task.Done? <==> Fetched(t, BatchOf(task)) in events
                          && (policy.Collecting? || BatchOf(task) == [] || HandlerOk(t) in events))
      && (task.Pending? <==> FetchFails(t) !in events && forall b :: Fetched(t, b) !in events)
      && (task.Failed? || task.Broken? <==> FetchFails(t) in events || HandlerErr(t) in events)
      && (HandlerErr(t) in events ==> if policy.PerRegion? then task.Failed? else task.Broken?)
      && (FetchFails(t) in events && !policy.PerService? ==> task.Failed?)
    case Handling(batch) =>
      && (task == Done(batch) <==> HandlerOk(t) in events)
      && (task == Handling(batch) <==> HandlerOk(t) !in events && HandlerErr(t) !in events)
      && (task.Failed? || task.Broken? <==> HandlerErr(t) in events)
      && (HandlerErr(t) in events ==> if policy.PerRegion? then task.Failed? else task.Broken?)
    case _ => task == was
  }

  /** A task is fetched once and handled once. */
  lemma {:induction false} NothingMoreHappens(policy: Policy, g: Group, events: seq<TaskEvent>, t: string)
    requires IsGroupRun(policy, g, events) && t in g.tasks
    ensures !g.tasks[t].Pending? ==> FetchFails(t) !in events && forall b :: Fetched(t, b) !in events
    ensures !g.tasks[t].Pending? && !g.tasks[t].Handling? ==> HandlerOk(t) !in events && HandlerErr(t) !in events
    decreases |events|
  {
    if events != [] {
      NothingMoreHappens(policy, GroupStep(policy, g, events[0]), events[1..], t);
      assert forall e :: e in events <==> e == events[0] || e in events[1..];
    }
  }

  lemma {:induction false} TaskFate(policy: Policy, g: Group, events: seq<TaskEvent>, t: string)
    requires IsGroupRun(policy, g, events) && t in g.tasks
    requires g.tasks[t].Handling? ==> !policy.Collecting? && g.tasks[t].batch != []
    ensures t in GroupAfter(policy, g, events).tasks
    ensures Explains(policy, events, t, g.tasks[t], GroupAfter(policy, g, events).tasks[t])
    decreases |events|
  {
    if events != [] {
      var e := events[0];
      var g' := GroupStep(policy, g, e);
      TaskFate(policy, g', events[1..], t);
      OneEventExplains(policy, g, events, t, GroupAfter(policy, g, events).tasks[t]);
    }
  }

  /** A fetch that fails is counted; after the context was cancelled, from outside
      or by a handler error of another task, its error aborts the group instead. */
  lemma {:induction false} FailedFetchFate(g: Group, events: seq<TaskEvent>, i: nat, t: string)
    requires IsGroupRun(PerService, g, events) && i < |events| && events[i] == FetchFails(t)
    ensures t in GroupAfter(PerService, g, events).tasks
    ensures GroupAfter(PerService, g, events).tasks[t]
         == if g.cancelled || exists j :: 0 <= j < i && (events[j].CancelParent? || events[j].HandlerErr?)
            then Broken else Failed
    decreases i
  {
    var e, g', rest := events[0], GroupStep(PerService, g, events[0]), events[1..];
    if i == 0 {
      TaskFate(PerService, g', rest, t);
    } else {
      FailedFetchFate(g', rest, i - 1, t);
      assert forall j :: 0 <= j < i - 1 ==> rest[j] == events[j + 1];
      assert g'.cancelled <==> g.cancelled || e.CancelParent? || e.HandlerErr?;
      if j :| 0 < j < i && (events[j].CancelParent? || events[j].HandlerErr?) {
        assert rest[j - 1] == events[j];
      }
    }
  }

  lemma OneEventExplains(policy: Policy, g: Group, events: seq<TaskEvent>, t: string, task: Task)
    requires events != [] && GroupCan(g, events[0]) && t in g.tasks
    requires g.tasks[t].Handling? ==> !policy.Collecting? && g.tasks[t].batch != []
    requires Explains(policy, events[1..], t, GroupStep(policy, g, events[0]).tasks[t], task)
    requires IsGroupRun(policy, g, events)
    ensures Explains(policy, events, t, g.tasks[t], task)
  {
    assert forall e :: e in events <==> e == events[0] || e in events[1..];
    NothingMoreHappens(policy, GroupStep(policy, g, events[0]), events[1..], t);
  }
}
