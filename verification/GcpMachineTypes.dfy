/** Machine-type prices out of separate CPU and RAM prices
    (internal/scraper/gcp.go). Prices are exact rationals here. */
module GcpMachineTypes {
  import opened Catalog

  const ZERO_PRICE := "0.0000000000"

  datatype PriceKey = PriceKey(region: string, purchaseOption: string)

  type Index = map<PriceKey, real>

  /** strconv.ParseFloat. */
  type Reader = string -> Option<real>

  datatype Spec = Spec(cpus: real, ramGB: real)

  // ---------------------------------------------------------------- unit prices

  function Description(p: Product): string {
    if "description" in p.attributes then p.attributes["description"] else ""
  }

  predicate Eligible(p: Product) {
    p.service == COMPUTE_ENGINE && !Contains(Description(p), "SUD") && !Contains(Description(p), "Commitment")
  }

  predicate Prices(read: Reader, p: Product, j: nat, k: PriceKey, v: real) {
    && j < |p.prices| && p.prices[j].usd != ZERO_PRICE && read(p.prices[j].usd) == Some(v)
    && k == PriceKey(p.region, p.prices[j].purchaseOption)
  }

  /** Some price of `p` prices `k` at `v`. */
  ghost predicate Offers(read: Reader, p: Product, k: PriceKey, v: real) {
    exists j: nat :: Prices(read, p, j, k, v)
  }

  /** Product number `i` counts for the pattern and offers `k` at `v`. */
  ghost predicate Sample(read: Reader, products: seq<Product>, pattern: string, i: nat, k: PriceKey, v: real) {
    i < |products| && Eligible(products[i]) && Contains(Description(products[i]), pattern)
        && Offers(read, products[i], k, v)
  }

  /** Which prices count, spelled out: those of Compute Engine products whose
      description has the pattern and neither SUD nor Commitment, unless zero or no
      number. */
  lemma SampleIff(read: Reader, products: seq<Product>, pattern: string, i: nat, k: PriceKey, v: real)
    requires i < |products|
    ensures Sample(read, products, pattern, i, k, v) <==>
              var p := products[i];
              var text := if "description" in p.attributes then p.attributes["description"] else "";
              && p.service == "Compute Engine" && !Has(text, "SUD") && !Has(text, "Commitment") && Has(text, pattern)
              && exists j :: 0 <= j < |p.prices| && p.prices[j].usd != "0.0000000000"
                             && read(p.prices[j].usd) == Some(v)
                             && k.region == p.region && k.purchaseOption == p.prices[j].purchaseOption
  {
    var p := products[i];
    var text := Description(p);
    ContainsIff(text, "SUD");
    ContainsIff(text, "Commitment");
    ContainsIff(text, pattern);
    OffersIff(read, p, k, v);
  }

  lemma OffersIff(read: Reader, p: Product, k: PriceKey, v: real)
    ensures Offers(read, p, k, v) <==>
              exists j :: 0 <= j < |p.prices| && p.prices[j].usd != "0.0000000000"
                          && read(p.prices[j].usd) == Some(v)
                          && k.region == p.region && k.purchaseOption == p.prices[j].purchaseOption
  {
    if Offers(read, p, k, v) {
      var j: nat :| Prices(read, p, j, k, v);
    }
    if j :| 0 <= j < |p.prices| && p.prices[j].usd != "0.0000000000" && read(p.prices[j].usd) == Some(v)
            && k.region == p.region && k.purchaseOption == p.prices[j].purchaseOption {
      assert Prices(read, p, j, k, v);
    }
  }

  /** `m` holds, for every key some product prices, the least price. */
  ghost predicate IsIndex(read: Reader, products: seq<Product>, pattern: string, m: Index) {
    && (forall i: nat, k, v :: Sample(read, products, pattern, i, k, v) ==> k in m && m[k] <= v)
    && (forall k :: k in m ==> exists i: nat :: Sample(read, products, pattern, i, k, m[k]))
  }

  /** There is one such index, whatever order the products come in and however
      often they are repeated. */
  lemma IndexIsOrderFree(read: Reader, a: seq<Product>, b: seq<Product>, pattern: string, ma: Index, mb: Index)
    requires forall p :: p in a <==> p in b
    requires IsIndex(read, a, pattern, ma) && IsIndex(read, b, pattern, mb)
    ensures ma == mb
  {
    SamplesCarryOver(read, a, b, pattern, ma, mb);
    SamplesCarryOver(read, b, a, pattern, mb, ma);
    NoDearer(ma, mb);
  }

  lemma NoDearer(ma: Index, mb: Index)
    requires forall k :: k in ma ==> k in mb && mb[k] <= ma[k]
    requires forall k :: k in mb ==> k in ma && ma[k] <= mb[k]
    ensures ma == mb
  {
  }

  lemma SamplesCarryOver(read: Reader, a: seq<Product>, b: seq<Product>, pattern: string, ma: Index, mb: Index)
    requires forall p :: p in a <==> p in b
    requires IsIndex(read, a, pattern, ma) && IsIndex(read, b, pattern, mb)
    ensures forall k :: k in ma ==> k in mb && mb[k] <= ma[k]
  {
    forall k | k in ma ensures k in mb && mb[k] <= ma[k] {
      var i: nat :| Sample(read, a, pattern, i, k, ma[k]);
      assert a[i] in a && a[i] in b;
      var j :| 0 <= j < |b| && b[j] == a[i];
      assert Sample(read, b, pattern, j, k, ma[k]);
    }
  }

  /** `m'` is `m` lowered by everything `p` offers up to its n-th price. */
  ghost predicate Lowered(read: Reader, p: Product, n: nat, m: Index, m': Index) {
    && (forall k :: k in m ==> k in m' && m'[k] <= m[k])
    && (forall j: nat, k, v :: j < n && Prices(read, p, j, k, v) ==> k in m' && m'[k] <= v)
    && (forall k :: k in m' ==> (k in m && m'[k] == m[k]) || Offers(read, p, k, m'[k]))
  }

  method LowerBy(read: Reader, p: Product, m: Index) returns (m': Index)
    ensures Lowered(read, p, |p.prices|, m, m')
  {
    m' := m;
    for j := 0 to |p.prices|
      invariant Lowered(read, p, j, m, m')
    {
      var price := p.prices[j];
      if price.usd != ZERO_PRICE {
        var v := read(price.usd);
        if v.Some? {
          var k := PriceKey(p.region, price.purchaseOption);
          assert Prices(read, p, j, k, v.value);
          if k !in m' || v.value < m'[k] {
            m' := m'[k := v.value];
          }
        }
      }
    }
  }

  function Get(index: map<string, Index>, family: string): Index {
    if family in index then index[family] else map[]
  }

  lemma OneMoreProduct(read: Reader, products: seq<Product>, i: nat, pattern: string, m: Index, m': Index)
    requires i < |products| && IsIndex(read, products[..i], pattern, m)
    requires if Eligible(products[i]) && Contains(Description(products[i]), pattern)
             then Lowered(read, products[i], |products[i].prices|, m, m') else m' == m
    ensures IsIndex(read, products[..i + 1], pattern, m')
  {
    var shorter, longer := products[..i], products[..i + 1];
    forall n: nat, k, v | Sample(read, longer, pattern, n, k, v) ensures k in m' && m'[k] <= v {
      if n < i {
        assert Sample(read, shorter, pattern, n, k, v);
      }
    }
    forall k | k in m' ensures exists n: nat :: Sample(read, longer, pattern, n, k, m'[k]) {
      if k in m && m'[k] == m[k] {
        var n: nat :| Sample(read, shorter, pattern, n, k, m[k]);
        assert Sample(read, longer, pattern, n, k, m'[k]);
      } else {
        assert Sample(read, longer, pattern, i, k, m'[k]);
      }
    }
  }

  /** One product against every family, in whatever order the map is walked. */
  method IndexProduct(read: Reader, p: Product, patterns: map<string, string>, index: map<string, Index>)
      returns (index': map<string, Index>)
    ensures forall f :: f in patterns ==>
              if Contains(Description(p), patterns[f]) then Lowered(read, p, |p.prices|, Get(index, f), Get(index', f))
              else Get(index', f) == Get(index, f)
    ensures forall f :: f !in patterns ==> Get(index', f) == Get(index, f)
  {
    index' := index;
    var left := patterns.Keys;
    while left != {}
      invariant forall f :: f in patterns && f in left ==> Get(index', f) == Get(index, f)
      invariant forall f :: f in patterns && f !in left ==>
                  if Contains(Description(p), patterns[f])
                  then Lowered(read, p, |p.prices|, Get(index, f), Get(index', f))
                  else Get(index', f) == Get(index, f)
      invariant forall f :: f !in patterns ==> Get(index', f) == Get(index, f)
      invariant left <= patterns.Keys
      decreases left
    {
      var family :| family in left;
      left := left - {family};
      if Contains(Description(p), patterns[family]) {
        var m := LowerBy(read, p, Get(index', family));
        index' := index'[family := m];
      }
    }
  }

  /** The index of every family with a pattern; a family without one has none. */
  ghost predicate AreIndexes(read: Reader, products: seq<Product>, patterns: map<string, string>,
                             index: map<string, Index>) {
    && (forall f :: f in patterns ==> IsIndex(read, products, patterns[f], Get(index, f)))
    && (forall f :: f !in patterns ==> Get(index, f) == map[])
  }

  method IndexPrices(read: Reader, products: seq<Product>, patterns: map<string, string>)
      returns (index: map<string, Index>)
    ensures AreIndexes(read, products, patterns, index)
  {
    index := map[];
    for i := 0 to |products|
      invariant AreIndexes(read, products[..i], patterns, index)
    {
      ghost var before := index;
      if Eligible(products[i]) {
        index := IndexProduct(read, products[i], patterns, index);
      }
      forall f | f in patterns ensures IsIndex(read, products[..i + 1], patterns[f], Get(index, f)) {
        OneMoreProduct(read, products, i, patterns[f], Get(before, f), Get(index, f));
      }
    }
    assert products[..|products|] == products;
  }

  // ---------------------------------------------------------------- machine types

  datatype Offer = Offer(purchaseOption: string, usd: real)

  datatype Machine = Machine(machineType: string, region: string, offers: seq<Offer>)

  predicate Priced(cpu: Index, ram: Index, region: string, option: string) {
    PriceKey(region, option) in cpu && PriceKey(region, option) in ram
  }

  function Total(cpu: Index, ram: Index, spec: Spec, region: string, option: string): real
    requires Priced(cpu, ram, region, option)
  {
    cpu[PriceKey(region, option)] * spec.cpus + ram[PriceKey(region, option)] * spec.ramGB
  }

  /** What one machine type is computed from. */
  datatype Job = Job(spec: Spec, cpu: Index, ram: Index)

  /** Exactly the purchase options that the keys in `keys` price for both CPU and
      RAM in the region, each once, each at its total. */
  ghost predicate OffersFrom(keys: set<PriceKey>, job: Job, region: string, offers: seq<Offer>) {
    && (forall i, j :: 0 <= i < j < |offers| ==> offers[i].purchaseOption != offers[j].purchaseOption)
    && (forall i :: 0 <= i < |offers| ==>
          && PriceKey(region, offers[i].purchaseOption) in keys
          && Priced(job.cpu, job.ram, region, offers[i].purchaseOption)
          && offers[i].usd == Total(job.cpu, job.ram, job.spec, region, offers[i].purchaseOption))
    && (forall k :: k in keys && k.region == region && Priced(job.cpu, job.ram, region, k.purchaseOption) ==>
          exists i :: 0 <= i < |offers| && offers[i].purchaseOption == k.purchaseOption)
  }

  lemma OneMoreKey(done: set<PriceKey>, job: Job, region: string, offers: seq<Offer>, k: PriceKey)
    requires OffersFrom(done, job, region, offers) && k !in done && k in job.cpu
    ensures k.region == region && k in job.ram ==>
              OffersFrom(done + {k}, job, region,
                         offers + [Offer(k.purchaseOption,
                                         Total(job.cpu, job.ram, job.spec, region, k.purchaseOption))])
    ensures k.region != region || k !in job.ram ==> OffersFrom(done + {k}, job, region, offers)
  {
    assert k == PriceKey(k.region, k.purchaseOption);
    if k.region == region && k in job.ram {
      var longer := offers + [Offer(k.purchaseOption, Total(job.cpu, job.ram, job.spec, region, k.purchaseOption))];
      forall q | q in done + {k} && q.region == region && Priced(job.cpu, job.ram, region, q.purchaseOption)
        ensures exists i :: 0 <= i < |longer| && longer[i].purchaseOption == q.purchaseOption
      {
        if q in done {
          var i :| 0 <= i < |offers| && offers[i].purchaseOption == q.purchaseOption;
          assert longer[i] == offers[i];
        } else {
          assert longer[|offers|].purchaseOption == q.purchaseOption;
        }
      }
    }
  }

  method OffersFor(job: Job, region: string) returns (offers: seq<Offer>)
    ensures OffersFrom(job.cpu.Keys, job, region, offers)
  {
    offers := [];
    var left := job.cpu.Keys;
    ghost var done: set<PriceKey> := {};
    while left != {}
      invariant forall k :: k in job.cpu <==> k in left || k in done
      invariant forall k :: k in left ==> k !in done
      invariant OffersFrom(done, job, region, offers)
      decreases left
    {
      var k :| k in left;
      left := left - {k};
      OneMoreKey(done, job, region, offers, k);
      done := done + {k};
      if k.region == region && k in job.ram {
        assert k == PriceKey(region, k.purchaseOption);
        var total := job.cpu[k] * job.spec.cpus + job.ram[k] * job.spec.ramGB;
        assert total == Total(job.cpu, job.ram, job.spec, region, k.purchaseOption);
        offers := offers + [Offer(k.purchaseOption, total)];
      }
    }
    assert done == job.cpu.Keys;
  }

  /** A product with all its offers, and at least one. */
  ghost predicate Right(m: Machine, job: Job) {
    m.offers != [] && OffersFrom(job.cpu.Keys, job, m.region, m.offers)
  }

  /** One machine type: a product for every region some key of `keys` prices. */
  ghost predicate OneType(keys: set<PriceKey>, machineType: string, job: Job, ms: seq<Machine>) {
    && (forall i, j :: 0 <= i < j < |ms| ==> ms[i].region != ms[j].region)
    && (forall i :: 0 <= i < |ms| ==> ms[i].machineType == machineType && Right(ms[i], job))
    && (forall k :: k in keys && k in job.cpu && k in job.ram ==> HasRegion(ms, k.region))
  }

  ghost predicate HasRegion(ms: seq<Machine>, region: string) {
    exists i :: 0 <= i < |ms| && ms[i].region == region
  }

  lemma OneMoreRegion(done: set<PriceKey>, machineType: string, job: Job, ms: seq<Machine>, k: PriceKey,
                      offers: seq<Offer>)
    requires OneType(done, machineType, job, ms) && !HasRegion(ms, k.region)
    requires Right(Machine(machineType, k.region, offers), job)
    ensures OneType(done + {k}, machineType, job, ms + [Machine(machineType, k.region, offers)])
  {
    var longer := ms + [Machine(machineType, k.region, offers)];
    forall q | q in done + {k} && q in job.cpu && q in job.ram ensures HasRegion(longer, q.region) {
      if q == k {
        assert longer[|ms|].region == q.region;
      } else {
        assert HasRegion(ms, q.region);
        var i :| 0 <= i < |ms| && ms[i].region == q.region;
        assert longer[i].region == q.region;
      }
    }
  }

  method SynthesizeType(machineType: string, job: Job) returns (ms: seq<Machine>)
    ensures OneType(job.cpu.Keys, machineType, job, ms)
  {
    ms := [];
    var seen: set<string> := {};
    var left := job.cpu.Keys;
    ghost var done: set<PriceKey> := {};
    while left != {}
      invariant forall k :: k in job.cpu <==> k in left || k in done
      invariant forall region :: region in seen <==> HasRegion(ms, region)
      invariant OneType(done, machineType, job, ms)
      decreases left
    {
      var k :| k in left;
      left := left - {k};
      if k in job.ram && k.region !in seen {
        ms := AddRegion(machineType, job, k, ms, done);
        seen := seen + {k.region};
      }
      done := done + {k};
    }
    assert done == job.cpu.Keys;
  }

  method AddRegion(machineType: string, job: Job, k: PriceKey, ms: seq<Machine>, ghost done: set<PriceKey>)
      returns (longer: seq<Machine>)
    requires k in job.cpu && k in job.ram
    requires OneType(done, machineType, job, ms) && !HasRegion(ms, k.region)
    ensures OneType(done + {k}, machineType, job, longer)
    ensures forall region :: HasRegion(longer, region) <==> HasRegion(ms, region) || region == k.region
  {
    var offers := OffersFor(job, k.region);
    assert k == PriceKey(k.region, k.purchaseOption) && Priced(job.cpu, job.ram, k.region, k.purchaseOption);
    longer := ms;
    if |offers| > 0 {
      OneMoreRegion(done, machineType, job, ms, k, offers);
      longer := ms + [Machine(machineType, k.region, offers)];
      RegionAppended(ms, Machine(machineType, k.region, offers));
    }
  }

  lemma RegionAppended(ms: seq<Machine>, m: Machine)
    ensures forall region :: HasRegion(ms + [m], region) <==> HasRegion(ms, region) || region == m.region
  {
    forall region ensures HasRegion(ms + [m], region) <==> HasRegion(ms, region) || region == m.region {
      if HasRegion(ms, region) {
        var i :| 0 <= i < |ms| && ms[i].region == region;
        assert (ms + [m])[i].region == region;
      }
      if region == m.region {
        assert (ms + [m])[|ms|].region == region;
      }
    }
  }

  ghost predicate HasMachine(ms: seq<Machine>, machineType: string, region: string) {
    exists i :: 0 <= i < |ms| && ms[i].machineType == machineType && ms[i].region == region
  }

  /** Exactly one product for every machine type and region that has a purchase
      option priced for both, with all its offers; nothing else. */
  ghost predicate Synthesized(jobs: map<string, Job>, result: seq<Machine>) {
    && (forall i, j :: 0 <= i < j < |result| ==>
          result[i].machineType != result[j].machineType || result[i].region != result[j].region)
    && (forall i :: 0 <= i < |result| ==>
          result[i].machineType in jobs && Right(result[i], jobs[result[i].machineType]))
    && (forall t, k :: t in jobs && k in jobs[t].cpu && k in jobs[t].ram ==> HasMachine(result, t, k.region))
  }

  lemma OneMoreType(jobs: map<string, Job>, result: seq<Machine>, t: string, job: Job, ms: seq<Machine>)
    requires Synthesized(jobs, result) && t !in jobs
    requires OneType(job.cpu.Keys, t, job, ms)
    ensures Synthesized(jobs[t := job], result + ms)
  {
    var all := result + ms;
    var jobs' := jobs[t := job];
    forall i | 0 <= i < |all| ensures all[i].machineType in jobs' && Right(all[i], jobs'[all[i].machineType]) {
      if i >= |result| {
        assert all[i] == ms[i - |result|];
      }
    }
    forall u, k | u in jobs' && k in jobs'[u].cpu && k in jobs'[u].ram ensures HasMachine(all, u, k.region) {
      if u == t {
        assert HasRegion(ms, k.region);
        var i :| 0 <= i < |ms| && ms[i].region == k.region;
        assert all[|result| + i] == ms[i];
      } else {
        assert HasMachine(result, u, k.region);
        var i :| 0 <= i < |result| && result[i].machineType == u && result[i].region == k.region;
        assert all[i] == result[i];
      }
    }
  }

  /** The types of one family, in whatever order the map is walked. */
  method SynthesizeFamily(types: map<string, Spec>, cpu: Index, ram: Index, result: seq<Machine>,
                          ghost jobs: map<string, Job>)
      returns (longer: seq<Machine>)
    requires Synthesized(jobs, result) && types.Keys !! jobs.Keys
    ensures Synthesized(jobs + FamilyJobs(types, cpu, ram), longer)
  {
    longer := result;
    var left := types.Keys;
    ghost var done := jobs;
    while left != {}
      invariant left <= types.Keys && left !! done.Keys
      invariant Synthesized(done, longer)
      invariant forall t :: t in done || t in left <==> t in jobs || t in types
      invariant forall t :: t in done ==> done[t] == if t in jobs then jobs[t] else Job(types[t], cpu, ram)
      decreases left
    {
      var t :| t in left;
      left := left - {t};
      var job := Job(types[t], cpu, ram);
      var ms := SynthesizeType(t, job);
      OneMoreType(done, longer, t, job, ms);
      done := done[t := job];
      longer := longer + ms;
    }
    assert done == jobs + FamilyJobs(types, cpu, ram);
  }

  function FamilyJobs(types: map<string, Spec>, cpu: Index, ram: Index): map<string, Job> {
    map t | t in types :: Job(types[t], cpu, ram)
  }

  /** Machine types belong to one family each. */
  ghost predicate Disjoint(machineTypes: map<string, map<string, Spec>>) {
    forall f, g :: f in machineTypes && g in machineTypes && f != g ==> machineTypes[f].Keys !! machineTypes[g].Keys
  }

  /** `jobs` has, for every type of every family in `families`, its spec and the
      family's two indexes. */
  ghost predicate JobsOf(machineTypes: map<string, map<string, Spec>>, families: set<string>,
                         cpu: map<string, Index>, ram: map<string, Index>, jobs: map<string, Job>) {
    && (forall f, t :: f in families && f in machineTypes && t in machineTypes[f] ==>
          t in jobs && jobs[t] == Job(machineTypes[f][t], Get(cpu, f), Get(ram, f)))
    && (forall t :: t in jobs ==> exists f :: f in families && f in machineTypes && t in machineTypes[f])
  }

  lemma OneMoreFamily(machineTypes: map<string, map<string, Spec>>, families: set<string>, f: string,
                      cpu: map<string, Index>, ram: map<string, Index>, jobs: map<string, Job>)
    requires Disjoint(machineTypes) && f in machineTypes && f !in families
    requires JobsOf(machineTypes, families, cpu, ram, jobs)
    ensures machineTypes[f].Keys !! jobs.Keys
    ensures JobsOf(machineTypes, families + {f}, cpu, ram, jobs + FamilyJobs(machineTypes[f], Get(cpu, f), Get(ram, f)))
  {
    var more := jobs + FamilyJobs(machineTypes[f], Get(cpu, f), Get(ram, f));
    forall t | t in more ensures exists g :: g in families + {f} && g in machineTypes && t in machineTypes[g] {
      if t in machineTypes[f] {
        assert f in families + {f};
      } else {
        var g :| g in families && g in machineTypes && t in machineTypes[g];
        assert g in families + {f};
      }
    }
  }

  // ---------------------------------------------------------------- the outcome

  /** The source of every product: its family's indexes over all products. */
  ghost predicate Basis(read: Reader, products: seq<Product>,
                        cpuPatterns: map<string, string>, ramPatterns: map<string, string>,
                        machineTypes: map<string, map<string, Spec>>,
                        cpu: map<string, Index>, ram: map<string, Index>, jobs: map<string, Job>) {
    && AreIndexes(read, products, cpuPatterns, cpu) && AreIndexes(read, products, ramPatterns, ram)
    && JobsOf(machineTypes, machineTypes.Keys, cpu, ram, jobs)
  }

  ghost predicate Outcome(read: Reader, products: seq<Product>,
                          cpuPatterns: map<string, string>, ramPatterns: map<string, string>,
                          machineTypes: map<string, map<string, Spec>>, result: seq<Machine>) {
    exists cpu, ram, jobs ::
      Basis(read, products, cpuPatterns, ramPatterns, machineTypes, cpu, ram, jobs) && Synthesized(jobs, result)
  }

  /** From Compute Engine products in any order to machine types, with every map
      walked in any order. A family without prices has empty indexes and yields
      nothing. */
  method SynthesizeMachineTypes(
      read: Reader, products: seq<Product>,
      cpuPatterns: map<string, string>, ramPatterns: map<string, string>,
      machineTypes: map<string, map<string, Spec>>)
      returns (result: seq<Machine>)
    requires Disjoint(machineTypes)
    ensures Outcome(read, products, cpuPatterns, ramPatterns, machineTypes, result)
  {
    var cpu := IndexPrices(read, products, cpuPatterns);
    var ram := IndexPrices(read, products, ramPatterns);
    result := [];
    ghost var jobs: map<string, Job> := map[];
    var left := machineTypes.Keys;
    ghost var done: set<string> := {};
    while left != {}
      invariant forall f :: f in machineTypes <==> f in left || f in done
      invariant forall f :: f in left ==> f !in done
      invariant JobsOf(machineTypes, done, cpu, ram, jobs)
      invariant Synthesized(jobs, result)
      decreases left
    {
      var f :| f in left;
      left := left - {f};
      OneMoreFamily(machineTypes, done, f, cpu, ram, jobs);
      result := SynthesizeFamily(machineTypes[f], Get(cpu, f), Get(ram, f), result, jobs);
      jobs := jobs + FamilyJobs(machineTypes[f], Get(cpu, f), Get(ram, f));
      done := done + {f};
    }
    assert done == machineTypes.Keys;
    assert Basis(read, products, cpuPatterns, ramPatterns, machineTypes, cpu, ram, jobs);
  }

  /** Without compute products there are no machine types. */
  lemma NothingFromNothing(read: Reader, cpuPatterns: map<string, string>, ramPatterns: map<string, string>,
                           machineTypes: map<string, map<string, Spec>>)
    requires Disjoint(machineTypes)
    ensures Outcome(read, [], cpuPatterns, ramPatterns, machineTypes, [])
  {
    var jobs := EmptyJobs(machineTypes, machineTypes.Keys);
    assert Basis(read, [], cpuPatterns, ramPatterns, machineTypes, map[], map[], jobs);
    assert Synthesized(jobs, []);
  }

  lemma {:induction false} EmptyJobs(machineTypes: map<string, map<string, Spec>>, families: set<string>)
      returns (jobs: map<string, Job>)
    requires Disjoint(machineTypes) && families <= machineTypes.Keys
    ensures JobsOf(machineTypes, families, map[], map[], jobs)
    ensures forall t :: t in jobs ==> jobs[t].cpu == map[]
    decreases |families|
  {
    jobs := map[];
    if families != {} {
      var f :| f in families;
      var rest := EmptyJobs(machineTypes, families - {f});
      OneMoreFamily(machineTypes, families - {f}, f, map[], map[], rest);
      assert families - {f} + {f} == families;
      jobs := rest + FamilyJobs(machineTypes[f], map[], map[]);
    }
  }

  /** `v` is the least price the family's products offer `k` at. */
  ghost predicate Least(read: Reader, products: seq<Product>, patterns: map<string, string>, f: string, k: PriceKey,
                        v: real) {
    && f in patterns
    && (exists i: nat :: Sample(read, products, patterns[f], i, k, v))
    && (forall i: nat, w :: Sample(read, products, patterns[f], i, k, w) ==> v <= w)
  }

  /** `usd` is the least CPU price times the CPUs plus the least RAM price times
      the gigabytes. */
  ghost predicate LeastTotal(read: Reader, products: seq<Product>,
                             cpuPatterns: map<string, string>, ramPatterns: map<string, string>,
                             f: string, spec: Spec, k: PriceKey, usd: real) {
    exists c, r :: Least(read, products, cpuPatterns, f, k, c) && Least(read, products, ramPatterns, f, k, r)
                && usd == c * spec.cpus + r * spec.ramGB
  }

  ghost predicate Offered(ms: seq<Machine>, machineType: string, region: string, o: Offer) {
    exists i :: 0 <= i < |ms| && ms[i].machineType == machineType && ms[i].region == region && o in ms[i].offers
  }

  /** What is offered, said of the products alone: a machine type of family `f`
      is offered in a region under a purchase option at some price exactly when
      that family has both a least CPU price and a least RAM price there, and the
      price is their total. */
  lemma OfferedIff(read: Reader, products: seq<Product>,
                   cpuPatterns: map<string, string>, ramPatterns: map<string, string>,
                   machineTypes: map<string, map<string, Spec>>, result: seq<Machine>,
                   f: string, t: string, region: string, o: Offer)
    requires Outcome(read, products, cpuPatterns, ramPatterns, machineTypes, result)
    requires f in machineTypes && t in machineTypes[f]
    ensures Offered(result, t, region, o) <==>
            LeastTotal(read, products, cpuPatterns, ramPatterns, f, machineTypes[f][t],
                       PriceKey(region, o.purchaseOption), o.usd)
  {
    var cpu, ram, jobs :|
      Basis(read, products, cpuPatterns, ramPatterns, machineTypes, cpu, ram, jobs) && Synthesized(jobs, result);
    var k := PriceKey(region, o.purchaseOption);
    OfferedIffPriced(jobs, result, t, region, o);
    LeastIffIndexed(read, products, cpuPatterns, cpu, f, k);
    LeastIffIndexed(read, products, ramPatterns, ram, f, k);
    PricedIffLeast(read, products, cpuPatterns, ramPatterns, jobs[t], f, region, o);
  }

  lemma PricedIffLeast(read: Reader, products: seq<Product>,
                       cpuPatterns: map<string, string>, ramPatterns: map<string, string>,
                       job: Job, f: string, region: string, o: Offer)
    requires forall v :: Least(read, products, cpuPatterns, f, PriceKey(region, o.purchaseOption), v)
                         <==> Holds(job.cpu, PriceKey(region, o.purchaseOption), v)
    requires forall v :: Least(read, products, ramPatterns, f, PriceKey(region, o.purchaseOption), v)
                         <==> Holds(job.ram, PriceKey(region, o.purchaseOption), v)
    ensures var k := PriceKey(region, o.purchaseOption);
            Priced(job.cpu, job.ram, region, o.purchaseOption)
                && o.usd == Total(job.cpu, job.ram, job.spec, region, o.purchaseOption)
            <==>
            LeastTotal(read, products, cpuPatterns, ramPatterns, f, job.spec, k, o.usd)
  {
    var k := PriceKey(region, o.purchaseOption);
    if Priced(job.cpu, job.ram, region, o.purchaseOption) {
      assert Holds(job.cpu, k, job.cpu[k]) && Holds(job.ram, k, job.ram[k]);
    }
  }

  predicate Holds(m: Index, k: PriceKey, v: real) {
    k in m && m[k] == v
  }

  lemma LeastIffIndexed(read: Reader, products: seq<Product>, patterns: map<string, string>, index: map<string, Index>,
                        f: string, k: PriceKey)
    requires AreIndexes(read, products, patterns, index)
    ensures forall v :: Least(read, products, patterns, f, k, v) <==> Holds(Get(index, f), k, v)
  {
    forall v ensures Least(read, products, patterns, f, k, v) <==> Holds(Get(index, f), k, v) {
      if Least(read, products, patterns, f, k, v) {
        var i: nat :| Sample(read, products, patterns[f], i, k, v);
        assert k in Get(index, f);
      }
      if Holds(Get(index, f), k, v) {
        assert f in patterns && IsIndex(read, products, patterns[f], Get(index, f));
        var i: nat :| Sample(read, products, patterns[f], i, k, Get(index, f)[k]);
      }
    }
  }

  lemma OfferedIffPriced(jobs: map<string, Job>, result: seq<Machine>, t: string, region: string, o: Offer)
    requires Synthesized(jobs, result) && t in jobs
    ensures var job := jobs[t];
            Offered(result, t, region, o) <==>
            Priced(job.cpu, job.ram, region, o.purchaseOption)
                && o.usd == Total(job.cpu, job.ram, job.spec, region, o.purchaseOption)
  {
    var job, k := jobs[t], PriceKey(region, o.purchaseOption);
    if Offered(result, t, region, o) {
      var i :| 0 <= i < |result| && result[i].machineType == t && result[i].region == region && o in result[i].offers;
      assert Right(result[i], job);
    }
    if Priced(job.cpu, job.ram, region, o.purchaseOption)
        && o.usd == Total(job.cpu, job.ram, job.spec, region, o.purchaseOption) {
      assert k in job.cpu && k in job.ram;
      assert HasMachine(result, t, k.region);
      var i :| 0 <= i < |result| && result[i].machineType == t && result[i].region == region;
      assert Right(result[i], job);
      assert k in job.cpu.Keys && k.region == region;
      var n :| 0 <= n < |result[i].offers| && result[i].offers[n].purchaseOption == k.purchaseOption;
      assert result[i].offers[n] == o;
    }
  }

  /** The order of the products, their repetition and the order in which maps are
      walked change nothing: two outcomes offer the same. */
  lemma OutcomeIsOrderFree(read: Reader, a: seq<Product>, b: seq<Product>,
                           cpuPatterns: map<string, string>, ramPatterns: map<string, string>,
                           machineTypes: map<string, map<string, Spec>>, ra: seq<Machine>, rb: seq<Machine>)
    requires forall p :: p in a <==> p in b
    requires Outcome(read, a, cpuPatterns, ramPatterns, machineTypes, ra)
    requires Outcome(read, b, cpuPatterns, ramPatterns, machineTypes, rb)
    ensures forall t, region, o :: Offered(ra, t, region, o) <==> Offered(rb, t, region, o)
  {
    var ca, ma, ja :| Basis(read, a, cpuPatterns, ramPatterns, machineTypes, ca, ma, ja) && Synthesized(ja, ra);
    var cb, mb, jb :| Basis(read, b, cpuPatterns, ramPatterns, machineTypes, cb, mb, jb) && Synthesized(jb, rb);
    SameIndexes(read, a, b, cpuPatterns, ca, cb);
    SameIndexes(read, a, b, ramPatterns, ma, mb);
    SameJobs(machineTypes, ca, ma, ja, cb, mb, jb);
    forall t, region, o ensures Offered(ra, t, region, o) <==> Offered(rb, t, region, o) {
      if t in ja {
        OfferedIffPriced(ja, ra, t, region, o);
        OfferedIffPriced(ja, rb, t, region, o);
      }
    }
  }

  lemma SameIndexes(read: Reader, a: seq<Product>, b: seq<Product>, patterns: map<string, string>,
                    ia: map<string, Index>, ib: map<string, Index>)
    requires forall p :: p in a <==> p in b
    requires AreIndexes(read, a, patterns, ia) && AreIndexes(read, b, patterns, ib)
    ensures forall f :: Get(ia, f) == Get(ib, f)
  {
    forall f ensures Get(ia, f) == Get(ib, f) {
      if f in patterns {
        IndexIsOrderFree(read, a, b, patterns[f], Get(ia, f), Get(ib, f));
      }
    }
  }

  lemma SameJobs(machineTypes: map<string, map<string, Spec>>,
                 ca: map<string, Index>, ma: map<string, Index>, ja: map<string, Job>,
                 cb: map<string, Index>, mb: map<string, Index>, jb: map<string, Job>)
    requires JobsOf(machineTypes, machineTypes.Keys, ca, ma, ja) && JobsOf(machineTypes, machineTypes.Keys, cb, mb, jb)
    requires forall f :: Get(ca, f) == Get(cb, f) && Get(ma, f) == Get(mb, f)
    ensures ja == jb
  {
    forall t | t in ja ensures t in jb && ja[t] == jb[t] {
      var f :| f in machineTypes && t in machineTypes[f];
      assert f in machineTypes.Keys;
    }
    forall t | t in jb ensures t in ja {
      var f :| f in machineTypes && t in machineTypes[f];
      assert f in machineTypes.Keys;
    }
  }
}
