/** Service discovery (internal/scraper/gcp.go), and exactly when the guards of the
    cleanup protect every service that was to be scraped. */
module ScrapeCoverage {
  import opened Catalog
  import opened BatchUpsert
  import opened ScrapeMachine
  import opened ScrapeJoint
  import opened ScrapeDiscovery
  import F = ScrapeFanout

  // ---------------------------------------------------------------- discovery

  datatype Service = Service(id: string, displayName: string)

  /** One page of the service list; None when it could not be fetched or read. */
  type ServicePage = Option<seq<Service>>

  /** strings.ToLower. */
  type Lower = string -> string

  predicate Wanted(lower: Lower, listed: seq<string>, name: string) {
    exists i :: 0 <= i < |listed| && lower(listed[i]) == lower(name)
  }

  /** The listed ones among `services` by display name; the last id of a name wins. */
  function Resolved(lower: Lower, listed: seq<string>, services: seq<Service>): map<string, string> {
    if services == [] then map[]
    else
      var n := |services| - 1;
      var before := Resolved(lower, listed, services[..n]);
      var s := services[n];
      if Wanted(lower, listed, s.displayName) then before[s.displayName := s.id] else before
  }

  function NamesOf(listed: seq<string>): set<string> {
    set name | name in listed
  }

  predicate AllCame(pages: seq<ServicePage>) {
    forall i :: 0 <= i < |pages| ==> pages[i].Some?
  }

  function AllServices(pages: seq<ServicePage>): seq<Service>
    requires AllCame(pages)
  {
    if pages == [] then [] else AllServices(pages[..|pages| - 1]) + pages[|pages| - 1].value
  }

  /** What the scraper goes on with: a failure anywhere discards all pages. */
  function Discovery(lower: Lower, listed: seq<string>, pages: seq<ServicePage>): Option<map<string, string>> {
    if AllCame(pages) then Some(Resolved(lower, listed, AllServices(pages))) else None
  }

  /** The names that come out of discovery. */
  lemma {:induction false} ResolvedIff(lower: Lower, listed: seq<string>, services: seq<Service>, name: string)
    ensures name in Resolved(lower, listed, services) <==>
            && (exists k :: 0 <= k < |listed| && lower(listed[k]) == lower(name))
            && exists i :: 0 <= i < |services| && services[i].displayName == name
  {
    var n := |services| - 1;
    if n >= 0 {
      ResolvedIff(lower, listed, services[..n], name);
      assert forall i :: 0 <= i < n ==> services[..n][i] == services[i];
      if name in Resolved(lower, listed, services[..n]) {
        var i :| 0 <= i < n && services[..n][i].displayName == name;
        assert services[i].displayName == name;
      }
    }
  }

  method LowerNames(lower: Lower, listed: seq<string>) returns (want: set<string>)
    ensures forall name :: lower(name) in want <==> Wanted(lower, listed, name)
  {
    want := {};
    for i := 0 to |listed|
      invariant forall l :: l in want <==> exists j :: 0 <= j < i && lower(listed[j]) == l
    {
      want := want + {lower(listed[i])};
    }
  }

  lemma OneMoreService(lower: Lower, listed: seq<string>, before: seq<Service>, services: seq<Service>, i: nat)
    requires i < |services|
    ensures Resolved(lower, listed, before + services[..i + 1]) ==
            var out := Resolved(lower, listed, before + services[..i]);
            var s := services[i];
            if Wanted(lower, listed, s.displayName) then out[s.displayName := s.id] else out
  {
    assert (before + services[..i + 1])[..|before| + i] == before + services[..i];
  }

  method ReadPage(lower: Lower, want: set<string>, services: seq<Service>, out: map<string, string>,
                  ghost listed: seq<string>, ghost before: seq<Service>)
      returns (out': map<string, string>)
    requires forall name :: lower(name) in want <==> Wanted(lower, listed, name)
    requires out == Resolved(lower, listed, before)
    ensures out' == Resolved(lower, listed, before + services)
  {
    out' := out;
    assert before + services[..0] == before;
    for i := 0 to |services|
      invariant out' == Resolved(lower, listed, before + services[..i])
    {
      OneMoreService(lower, listed, before, services, i);
      if lower(services[i].displayName) in want {
        out' := out'[services[i].displayName := services[i].id];
      }
    }
    assert before + services[..|services|] == before + services;
  }

  method ResolveDiscoverable(lower: Lower, listed: seq<string>, pages: seq<ServicePage>)
      returns (found: Option<map<string, string>>)
    ensures found == Discovery(lower, listed, pages)
  {
    var want := LowerNames(lower, listed);
    var out: map<string, string> := map[];
    for i := 0 to |pages|
      invariant AllCame(pages[..i]) && out == Resolved(lower, listed, AllServices(pages[..i]))
    {
      if pages[i].None? {
        return None;
      }
      assert pages[..i + 1][..i] == pages[..i];
      out := ReadPage(lower, want, pages[i].value, out, listed, AllServices(pages[..i]));
    }
    assert pages[..|pages|] == pages;
    found := Some(out);
  }

  // ---------------------------------------------------------------- coverage

  /** Every one of `names` was fetched and handled, under that name up to case. */
  ghost predicate Covers(lower: Lower, names: set<string>, f: F.Fan) {
    forall name :: name in names ==>
      exists t :: t in f.services.tasks && f.services.tasks[t].Done? && lower(t) == lower(name)
  }

  ghost predicate HasName(lower: Lower, targets: set<string>, name: string) {
    exists t :: t in targets && lower(t) == lower(name)
  }

  ghost predicate Named(lower: Lower, names: set<string>, targets: set<string>) {
    forall name :: name in names ==> HasName(lower, targets, name)
  }

  /** Matched exactly, the names must simply be targets. */
  lemma ExactNames(names: set<string>, targets: set<string>)
    ensures Named(name => name, names, targets) <==> names <= targets
  {
    forall name | name in names ensures HasName(n => n, targets, name) <==> name in targets {
    }
    if names <= targets {
      forall name | name in names ensures HasName(n => n, targets, name) {
        assert name in targets;
      }
    }
  }

  /** Every run that may clean up has fetched and handled these services. */
  ghost predicate AlwaysCovers(owner: string -> string, lower: Lower, x: F.Scraper, names: set<string>) {
    forall pid, s, moves :: CleanupRun(owner, x, pid, s, moves) ==>
      Covers(lower, names, JointAfter(ChangedOnly, x, pid, Joint(s, F.Start(x)), moves).f)
  }

  lemma RunCoversIff(owner: string -> string, lower: Lower, x: F.Scraper, names: set<string>, pid: nat, s: Sys,
                     moves: seq<Move>)
    requires CleanupRun(owner, x, pid, s, moves)
    ensures Covers(lower, names, JointAfter(ChangedOnly, x, pid, Joint(s, F.Start(x)), moves).f)
            <==> Named(lower, names, F.Targets(x))
  {
    CleanupMeansComplete(owner, ChangedOnly, x, pid, s, moves);
    DoneIffTarget(lower, x, names, JointAfter(ChangedOnly, x, pid, Joint(s, F.Start(x)), moves).f);
  }

  lemma DoneIffTarget(lower: Lower, x: F.Scraper, names: set<string>, f: F.Fan)
    requires F.AllDone(F.Targets(x), f.services)
    ensures Covers(lower, names, f) <==> Named(lower, names, F.Targets(x))
  {
    if Named(lower, names, F.Targets(x)) {
      forall name | name in names
        ensures exists t :: t in f.services.tasks && f.services.tasks[t].Done? && lower(t) == lower(name)
      {
        assert HasName(lower, F.Targets(x), name);
        var t :| t in F.Targets(x) && lower(t) == lower(name);
        assert f.services.tasks[t].Done?;
      }
    }
  }

  /** For any set of services, and whatever discovery answered: the guards protect
      them exactly when each is among the services to scrape. `one` and `other` are
      two products the vendor could have. */
  lemma GcpCleanupCoversIff(owner: string -> string, lower: Lower, wanted: set<string>,
                            fixed: map<string, string>, discovered: Option<map<string, string>>, synthesis: F.Synthesis,
                            kept: string, one: Product, other: Product)
    requires kept in F.GcpTargets(fixed, discovered) && kept != COMPUTE_ENGINE && synthesis([], [])
    requires one.vendor == other.vendor == owner(one.hash) == owner(other.hash) && one.hash != other.hash
    ensures var x := F.Gcp(true, fixed, discovered, synthesis);
            AlwaysCovers(owner, lower, x, wanted) <==> Named(lower, wanted, F.Targets(x))
  {
    var x := F.Gcp(true, fixed, discovered, synthesis);
    forall pid, s, moves | CleanupRun(owner, x, pid, s, moves)
      ensures Covers(lower, wanted, JointAfter(ChangedOnly, x, pid, Joint(s, F.Start(x)), moves).f)
              <==> Named(lower, wanted, F.Targets(x))
    {
      RunCoversIff(owner, lower, x, wanted, pid, s, moves);
    }
    var c := Case(fixed, discovered, F.Targets(x), kept, other, one, 0, synthesis);
    var moves := UnseenProductIsDeleted(owner, c);
    assert CleanupRun(owner, x, 0, Locked0(c), moves);
  }

  /** Some page, all of them having come, lists a service of that name. */
  ghost predicate AnsweredFor(lower: Lower, pages: seq<ServicePage>, name: string) {
    && (forall i :: 0 <= i < |pages| ==> pages[i].Some?)
    && exists i, s :: 0 <= i < |pages| && s in pages[i].value && lower(s.displayName) == lower(name)
  }

  lemma {:induction false} AllServicesIff(pages: seq<ServicePage>, s: Service)
    requires AllCame(pages)
    ensures s in AllServices(pages) <==> exists i :: 0 <= i < |pages| && s in pages[i].value
  {
    if pages != [] {
      var n := |pages| - 1;
      AllServicesIff(pages[..n], s);
      assert forall i :: 0 <= i < n ==> pages[..n][i] == pages[i];
      if i :| 0 <= i < n && s in pages[..n][i].value {
        assert s in pages[i].value;
      }
    }
  }

  /** The id is that of the last service of the name. */
  lemma {:induction false} LastIdWins(lower: Lower, listed: seq<string>, services: seq<Service>, i: nat)
    requires i < |services| && exists k :: 0 <= k < |listed| && lower(listed[k]) == lower(services[i].displayName)
    requires forall j :: i < j < |services| ==> services[j].displayName != services[i].displayName
    ensures var name := services[i].displayName;
            name in Resolved(lower, listed, services) && Resolved(lower, listed, services)[name] == services[i].id
  {
    var n := |services| - 1;
    if i < n {
      LastIdWins(lower, listed, services[..n], i);
    }
  }

  /** With the code's own discovery: all static and all discoverable services are
      protected exactly when each discoverable name is static too, or discovery
      succeeded and listed it. A failed discovery, and a name the list does not
      have, leave their services open. */
  lemma ListedServicesCoveredIff(owner: string -> string, lower: Lower, fixed: map<string, string>, listed: seq<string>,
                                 pages: seq<ServicePage>, synthesis: F.Synthesis, kept: string,
                                 one: Product, other: Product)
    requires kept in fixed && kept != COMPUTE_ENGINE && synthesis([], [])
    requires one.vendor == other.vendor == owner(one.hash) == owner(other.hash) && one.hash != other.hash
    ensures AlwaysCovers(owner, lower, F.Gcp(true, fixed, Discovery(lower, listed, pages), synthesis),
                         fixed.Keys + NamesOf(listed))
            <==>
            forall name :: name in listed ==> HasName(lower, fixed.Keys, name) || AnsweredFor(lower, pages, name)
  {
    GcpCleanupCoversIff(owner, lower, fixed.Keys + NamesOf(listed), fixed, Discovery(lower, listed, pages), synthesis,
                        kept, one, other);
    ListedNamedIff(lower, fixed, listed, pages);
  }

  lemma ListedNamedIff(lower: Lower, fixed: map<string, string>, listed: seq<string>, pages: seq<ServicePage>)
    ensures Named(lower, fixed.Keys + NamesOf(listed), F.GcpTargets(fixed, Discovery(lower, listed, pages)).Keys)
            <==>
            forall name :: name in listed ==> HasName(lower, fixed.Keys, name) || AnsweredFor(lower, pages, name)
  {
    var targets := F.GcpTargets(fixed, Discovery(lower, listed, pages)).Keys;
    TargetsNamedIff(lower, fixed.Keys, listed, targets);
    forall name | name in listed
      ensures HasName(lower, targets, name) <==> HasName(lower, fixed.Keys, name) || AnsweredFor(lower, pages, name)
    {
      ListedIsTargetIff(lower, fixed, listed, pages, name);
    }
  }

  lemma TargetsNamedIff(lower: Lower, fixed: set<string>, listed: seq<string>, targets: set<string>)
    requires fixed <= targets
    ensures Named(lower, fixed + NamesOf(listed), targets)
            <==> forall name :: name in listed ==> HasName(lower, targets, name)
  {
    forall name | name in fixed ensures HasName(lower, targets, name) {
      assert name in targets;
    }
    forall name | name in listed ensures name in fixed + NamesOf(listed) {
    }
  }

  lemma ListedIsTargetIff(lower: Lower, fixed: map<string, string>, listed: seq<string>, pages: seq<ServicePage>,
                          name: string)
    requires name in listed
    ensures HasName(lower, F.GcpTargets(fixed, Discovery(lower, listed, pages)).Keys, name)
            <==> HasName(lower, fixed.Keys, name) || AnsweredFor(lower, pages, name)
  {
    var discovered := Discovery(lower, listed, pages);
    var targets := F.GcpTargets(fixed, discovered);
    if t :| t in targets.Keys && lower(t) == lower(name) {
      if t !in fixed {
        ResolvedIff(lower, listed, AllServices(pages), t);
        var i :| 0 <= i < |AllServices(pages)| && AllServices(pages)[i].displayName == t;
        AllServicesIff(pages, AllServices(pages)[i]);
      }
    }
    if AnsweredFor(lower, pages, name) {
      var p, s :| 0 <= p < |pages| && s in pages[p].value && lower(s.displayName) == lower(name);
      AllServicesIff(pages, s);
      var i :| 0 <= i < |AllServices(pages)| && AllServices(pages)[i] == s;
      var t := s.displayName;
      var k :| 0 <= k < |listed| && listed[k] == name;
      assert Wanted(lower, listed, t);
      ResolvedIff(lower, listed, AllServices(pages), t);
      assert t in targets;
    }
    if t :| t in fixed && lower(t) == lower(name) {
      assert t in targets;
    }
  }
}
