/** The two analyses of a parsed GraphQL document (internal/server/server.go).
    They run before validation, so fragments may be undefined, defined twice, or
    spread each other in cycles. */
module QueryDocument {
  import opened Catalog

  /** A nil selection set in the AST is the empty sequence here: both analyses
      treat the two alike. */
  datatype Selection =
    | Field(name: string, sub: seq<Selection>)
    | Inline(sub: seq<Selection>)
    | Spread(fragment: string)

  datatype Definition =
    | Operation(selections: seq<Selection>)
    | Fragment(name: string, selections: seq<Selection>)
    | OtherDefinition

  type Fragments = map<string, seq<Selection>>

  /** The last definition of a name wins. */
  function CollectFragments(doc: seq<Definition>): Fragments {
    if doc == [] then map[]
    else
      var d := doc[|doc| - 1];
      var before := CollectFragments(doc[..|doc| - 1]);
      if d.Fragment? then before[d.name := d.selections] else before
  }

  /** What is collected: the names of the fragment definitions, and for each the
      body of its last definition. */
  lemma CollectedIff(doc: seq<Definition>, name: string)
    ensures name in CollectFragments(doc) <==> exists i :: 0 <= i < |doc| && doc[i].Fragment? && doc[i].name == name
    ensures forall i :: 0 <= i < |doc| && LastNamed(doc, i, name) ==>
              name in CollectFragments(doc) && CollectFragments(doc)[name] == doc[i].selections
  {
    NamesCollected(doc, name);
    forall i | 0 <= i < |doc| && LastNamed(doc, i, name)
      ensures name in CollectFragments(doc) && CollectFragments(doc)[name] == doc[i].selections
    {
      LastWins(doc, i, name);
    }
  }

  lemma {:induction false} NamesCollected(doc: seq<Definition>, name: string)
    ensures name in CollectFragments(doc) <==> exists i :: 0 <= i < |doc| && doc[i].Fragment? && doc[i].name == name
  {
    if doc != [] {
      var n := |doc| - 1;
      NamesCollected(doc[..n], name);
      if name in CollectFragments(doc[..n]) {
        var i :| 0 <= i < n && doc[..n][i].Fragment? && doc[..n][i].name == name;
        assert doc[i].Fragment? && doc[i].name == name;
      }
      if i :| 0 <= i < n && doc[i].Fragment? && doc[i].name == name {
        assert doc[..n][i] == doc[i];
      }
    }
  }

  lemma {:induction false} LastWins(doc: seq<Definition>, i: nat, name: string)
    requires LastNamed(doc, i, name)
    ensures name in CollectFragments(doc) && CollectFragments(doc)[name] == doc[i].selections
  {
    var n := |doc| - 1;
    if i < n {
      assert forall j :: 0 <= j < n ==> doc[..n][j] == doc[j];
      LastWins(doc[..n], i, name);
    }
  }

  ghost predicate LastNamed(doc: seq<Definition>, i: nat, name: string) {
    && i < |doc| && doc[i].Fragment? && doc[i].name == name
    && forall j :: i < j < |doc| && doc[j].Fragment? ==> doc[j].name != name
  }

  predicate IsIntrospection(name: string) {
    name == "__schema" || name == "__type"
  }

  // ---------------------------------------------------------------- expansions

  /** A way down into a selection set: which selection to enter, and how to go on
      inside it (inside the fragment's body, for a spread). */
  datatype Route = Stop | Enter(index: nat, rest: Route)

  function Length(r: Route): nat {
    match r
    case Stop => 0
    case Enter(_, rest) => 1 + Length(rest)
  }

  /** What lies below a selection. */
  function Below(fragments: Fragments, s: Selection): seq<Selection> {
    match s
    case Field(_, sub) => sub
    case Inline(sub) => sub
    case Spread(f) => if f in fragments then fragments[f] else []
  }

  /** The route exists: every index is in range and every spread is defined. */
  ghost predicate Possible(fragments: Fragments, ss: seq<Selection>, r: Route)
    decreases r
  {
    match r
    case Stop => true
    case Enter(i, rest) =>
      && i < |ss|
      && (ss[i].Spread? ==> ss[i].fragment in fragments)
      && Possible(fragments, Below(fragments, ss[i]), rest)
  }

  /** The route never spreads a fragment that is already open. */
  ghost predicate Avoids(fragments: Fragments, ss: seq<Selection>, r: Route, open: set<string>)
    decreases r
  {
    match r
    case Stop => true
    case Enter(i, rest) =>
      i < |ss| ==>
        && (ss[i].Spread? ==> ss[i].fragment !in open)
        && Avoids(fragments, Below(fragments, ss[i]), rest, Opened(ss[i], open))
  }

  function Opened(s: Selection, open: set<string>): set<string> {
    if s.Spread? then open + {s.fragment} else open
  }

  /** The last selection the route enters is an introspection field. */
  ghost predicate EndsInIntrospection(fragments: Fragments, ss: seq<Selection>, r: Route)
    requires Possible(fragments, ss, r)
    decreases r
  {
    match r
    case Stop => false
    case Enter(i, rest) =>
      || (rest.Stop? && ss[i].Field? && IsIntrospection(ss[i].name))
      || EndsInIntrospection(fragments, Below(fragments, ss[i]), rest)
  }

  /** The number of fields the route enters. */
  ghost function FieldCount(fragments: Fragments, ss: seq<Selection>, r: Route): nat
    requires Possible(fragments, ss, r)
    decreases r
  {
    match r
    case Stop => 0
    case Enter(i, rest) =>
      (if ss[i].Field? then 1 else 0) + FieldCount(fragments, Below(fragments, ss[i]), rest)
  }

  // ---------------------------------------------------------------- the walks, as functions

  /** Depth below `ss` when the fragments in `visited` are open. */
  function Depth(fragments: Fragments, ss: seq<Selection>, visited: set<string>): nat
    decreases fragments.Keys - visited, ss, 0
  {
    if ss == [] then 0
    else
      var first := SelectionDepth(fragments, ss[0], visited);
      var others := Depth(fragments, ss[1..], visited);
      if first > others then first else others
  }

  function SelectionDepth(fragments: Fragments, s: Selection, visited: set<string>): nat
    decreases fragments.Keys - visited, s, 1
  {
    match s
    case Field(_, sub) => 1 + Depth(fragments, sub, visited)
    case Inline(sub) => Depth(fragments, sub, visited)
    case Spread(f) =>
      if f in visited || f !in fragments then 0
      else
        assert fragments.Keys - (visited + {f}) < fragments.Keys - visited by {
          assert f in fragments.Keys - visited;
        }
        Depth(fragments, fragments[f], visited + {f})
  }

  predicate HasIntrospection(fragments: Fragments, ss: seq<Selection>, visited: set<string>)
    decreases fragments.Keys - visited, ss, 0
  {
    ss != [] && (SelectionIntrospects(fragments, ss[0], visited) || HasIntrospection(fragments, ss[1..], visited))
  }

  predicate SelectionIntrospects(fragments: Fragments, s: Selection, visited: set<string>)
    decreases fragments.Keys - visited, s, 1
  {
    match s
    case Field(name, sub) => IsIntrospection(name) || HasIntrospection(fragments, sub, visited)
    case Inline(sub) => HasIntrospection(fragments, sub, visited)
    case Spread(f) =>
      f !in visited && f in fragments &&
      (assert fragments.Keys - (visited + {f}) < fragments.Keys - visited by {
         assert f in fragments.Keys - visited;
       }
       HasIntrospection(fragments, fragments[f], visited + {f}))
  }

  // ---------------------------------------------------------------- introspection

  lemma {:induction false} MemberIntrospects(fragments: Fragments, ss: seq<Selection>, i: nat, visited: set<string>)
    requires i < |ss| && SelectionIntrospects(fragments, ss[i], visited)
    ensures HasIntrospection(fragments, ss, visited)
    decreases i
  {
    if i > 0 {
      MemberIntrospects(fragments, ss[1..], i - 1, visited);
    }
  }

  /** Soundness, with the route as evidence. */
  lemma {:induction false} IntrospectionRoute(fragments: Fragments, ss: seq<Selection>, visited: set<string>)
      returns (r: Route)
    requires HasIntrospection(fragments, ss, visited)
    ensures Possible(fragments, ss, r) && EndsInIntrospection(fragments, ss, r)
    ensures Avoids(fragments, ss, r, visited)
    decreases fragments.Keys - visited, ss
  {
    var s := ss[0];
    if SelectionIntrospects(fragments, s, visited) {
      if s.Field? && IsIntrospection(s.name) {
        return Enter(0, Stop);
      }
      if s.Spread? {
        assert s.fragment in fragments.Keys - visited;
      }
      var rest := IntrospectionRoute(fragments, Below(fragments, s), Opened(s, visited));
      r := Enter(0, rest);
    } else {
      var later := IntrospectionRoute(fragments, ss[1..], visited);
      assert later.Enter?;
      r := Enter(later.index + 1, later.rest);
      assert ss[later.index + 1] == ss[1..][later.index];
    }
  }

  /** The shortcut argument. A route to an introspection field either is found
      although the fragments in `visited` are closed off, or it passes through
      one of them, and from there a shorter route does the job. */
  lemma {:induction false} Shortcut(fragments: Fragments, ss: seq<Selection>, r: Route, visited: set<string>)
      returns (f: string, shorter: Route)
    requires Possible(fragments, ss, r) && EndsInIntrospection(fragments, ss, r)
    ensures HasIntrospection(fragments, ss, visited) ||
            (f in visited && f in fragments && Length(shorter) < Length(r) &&
             Possible(fragments, fragments[f], shorter) && EndsInIntrospection(fragments, fragments[f], shorter))
    decreases Length(r)
  {
    f, shorter := "", Stop;
    var s, rest := ss[r.index], r.rest;
    if s.Field? && IsIntrospection(s.name) {
      MemberIntrospects(fragments, ss, r.index, visited);
    } else if s.Spread? && s.fragment in visited {
      f, shorter := s.fragment, rest;
    } else {
      f, shorter := Shortcut(fragments, Below(fragments, s), rest, Opened(s, visited));
      if HasIntrospection(fragments, Below(fragments, s), Opened(s, visited)) {
        MemberIntrospects(fragments, ss, r.index, visited);
      } else if s.Spread? && f == s.fragment {
        // The route re-enters this very fragment: cut the loop out and retry.
        f, shorter := Shortcut(fragments, ss, Enter(r.index, shorter), visited);
      }
    }
  }

  lemma ReachableIsFound(fragments: Fragments, ss: seq<Selection>, r: Route)
    requires Possible(fragments, ss, r) && EndsInIntrospection(fragments, ss, r)
    ensures HasIntrospection(fragments, ss, {})
  {
    var none: set<string> := {};
    var f, shorter := Shortcut(fragments, ss, r, none);
    assert f !in none;
  }

  /** The check is exact: it answers true just when some expansion, re-entering
      fragments at will, reaches an introspection field. */
  lemma IntrospectionIffReachable(fragments: Fragments, ss: seq<Selection>)
    ensures HasIntrospection(fragments, ss, {}) ==>
              exists r :: Possible(fragments, ss, r) && EndsInIntrospection(fragments, ss, r)
    ensures (exists r :: Possible(fragments, ss, r) && EndsInIntrospection(fragments, ss, r)) ==>
              HasIntrospection(fragments, ss, {})
  {
    if HasIntrospection(fragments, ss, {}) {
      var r := IntrospectionRoute(fragments, ss, {});
      assert Possible(fragments, ss, r) && EndsInIntrospection(fragments, ss, r);
    }
    forall r | Possible(fragments, ss, r) && EndsInIntrospection(fragments, ss, r)
      ensures HasIntrospection(fragments, ss, {})
    {
      ReachableIsFound(fragments, ss, r);
    }
  }

  /** Hence no route ever needs to spread an open fragment again. */
  lemma ReentryNeverNeeded(fragments: Fragments, ss: seq<Selection>, r: Route) returns (direct: Route)
    requires Possible(fragments, ss, r) && EndsInIntrospection(fragments, ss, r)
    ensures Possible(fragments, ss, direct) && EndsInIntrospection(fragments, ss, direct)
    ensures Avoids(fragments, ss, direct, {})
  {
    ReachableIsFound(fragments, ss, r);
    direct := IntrospectionRoute(fragments, ss, {});
  }

  // ---------------------------------------------------------------- depth

  lemma {:induction false} MemberDepth(fragments: Fragments, ss: seq<Selection>, i: nat, visited: set<string>)
    requires i < |ss|
    ensures SelectionDepth(fragments, ss[i], visited) <= Depth(fragments, ss, visited)
    decreases i
  {
    if i > 0 {
      MemberDepth(fragments, ss[1..], i - 1, visited);
    }
  }

  /** No expansion that keeps out of open fragments nests more fields. */
  lemma {:induction false} DepthBoundsRoutes(fragments: Fragments, ss: seq<Selection>, r: Route, visited: set<string>)
    requires Possible(fragments, ss, r) && Avoids(fragments, ss, r, visited)
    ensures FieldCount(fragments, ss, r) <= Depth(fragments, ss, visited)
    decreases r
  {
    if r.Enter? {
      var s := ss[r.index];
      DepthBoundsRoutes(fragments, Below(fragments, s), r.rest, Opened(s, visited));
      MemberDepth(fragments, ss, r.index, visited);
    }
  }

  /** And some such expansion reaches the depth. */
  lemma {:induction false} DeepestRoute(fragments: Fragments, ss: seq<Selection>, visited: set<string>)
      returns (r: Route)
    ensures Possible(fragments, ss, r) && Avoids(fragments, ss, r, visited)
    ensures FieldCount(fragments, ss, r) == Depth(fragments, ss, visited)
    decreases fragments.Keys - visited, ss
  {
    r := Stop;
    if ss != [] && Depth(fragments, ss, visited) > 0 {
      var s := ss[0];
      if SelectionDepth(fragments, s, visited) == Depth(fragments, ss, visited) {
        if s.Spread? {
          assert s.fragment in fragments.Keys - visited;
        }
        var rest := DeepestRoute(fragments, Below(fragments, s), Opened(s, visited));
        r := Enter(0, rest);
      } else {
        var later := DeepestRoute(fragments, ss[1..], visited);
        r := Enter(later.index + 1, later.rest);
        assert ss[later.index + 1] == ss[1..][later.index];
      }
    }
  }

  // ---------------------------------------------------------------- acyclic documents

  /** Every defined spread in `ss` ranks below `bound`. */
  ghost predicate RanksBelow(fragments: Fragments, rank: map<string, nat>, ss: seq<Selection>, bound: nat)
    decreases ss
  {
    forall i :: 0 <= i < |ss| ==>
      match ss[i]
      case Field(_, sub) => RanksBelow(fragments, rank, sub, bound)
      case Inline(sub) => RanksBelow(fragments, rank, sub, bound)
      case Spread(f) => f in fragments ==> f in rank && rank[f] < bound
  }

  /** Fragments only spread fragments of lower rank, so there is no cycle. */
  ghost predicate Acyclic(fragments: Fragments, rank: map<string, nat>) {
    forall f :: f in fragments ==> f in rank && RanksBelow(fragments, rank, fragments[f], rank[f])
  }

  /** Field nesting of a selection set without spreads. */
  function Height(ss: seq<Selection>): nat
    decreases ss
  {
    if ss == [] then 0
    else
      var first := match ss[0]
        case Field(_, sub) => 1 + Height(sub)
        case Inline(sub) => Height(sub)
        case Spread(_) => 0;
      var others := Height(ss[1..]);
      if first > others then first else others
  }

  /** The selection set with every spread replaced by the fragment's body. */
  ghost function Inlined(fragments: Fragments, rank: map<string, nat>, ss: seq<Selection>, bound: nat)
    : (r: seq<Selection>)
    requires Acyclic(fragments, rank) && RanksBelow(fragments, rank, ss, bound)
    ensures |r| == |ss|
    decreases bound, ss
  {
    if ss == [] then []
    else
      assert forall i :: 0 <= i < |ss[1..]| ==> ss[1..][i] == ss[i + 1];
      var first := match ss[0]
        case Field(name, sub) => Field(name, Inlined(fragments, rank, sub, bound))
        case Inline(sub) => Inline(Inlined(fragments, rank, sub, bound))
        case Spread(f) =>
          if f in fragments then Inline(Inlined(fragments, rank, fragments[f], rank[f])) else Inline([]);
      [first] + Inlined(fragments, rank, ss[1..], bound)
  }

  /** Without cycles the guard never cuts anything off: the depth is that of the
      fully inlined selection set. */
  lemma {:induction false} DepthIsInlinedHeight(
      fragments: Fragments, rank: map<string, nat>, ss: seq<Selection>, bound: nat, visited: set<string>)
    requires Acyclic(fragments, rank) && RanksBelow(fragments, rank, ss, bound)
    requires forall v :: v in visited && v in fragments ==> rank[v] >= bound
    ensures Depth(fragments, ss, visited) == Height(Inlined(fragments, rank, ss, bound))
    decreases bound, ss
  {
    if ss != [] {
      assert forall i :: 0 <= i < |ss[1..]| ==> ss[1..][i] == ss[i + 1];
      DepthIsInlinedHeight(fragments, rank, ss[1..], bound, visited);
      match ss[0]
      case Field(_, sub) => DepthIsInlinedHeight(fragments, rank, sub, bound, visited);
      case Inline(sub) => DepthIsInlinedHeight(fragments, rank, sub, bound, visited);
      case Spread(f) =>
        if f in fragments {
          DepthIsInlinedHeight(fragments, rank, fragments[f], rank[f], visited + {f});
        }
    }
  }

  lemma {:induction false} EverythingRanks(fragments: Fragments, rank: map<string, nat>, ss: seq<Selection>, bound: nat)
    requires forall f :: f in fragments ==> f in rank && rank[f] < bound
    ensures RanksBelow(fragments, rank, ss, bound)
    decreases ss
  {
    forall i | 0 <= i < |ss| && !ss[i].Spread? ensures RanksBelow(fragments, rank, ss[i].sub, bound) {
      EverythingRanks(fragments, rank, ss[i].sub, bound);
    }
  }

  // ---------------------------------------------------------------- cycles

  /** The fragment names spread anywhere in `ss`. */
  function Spreads(ss: seq<Selection>): set<string>
    decreases ss
  {
    if ss == [] then {}
    else
      var first := match ss[0]
        case Field(_, sub) => Spreads(sub)
        case Inline(sub) => Spreads(sub)
        case Spread(f) => {f};
      first + Spreads(ss[1..])
  }

  /** Defined fragments, each spreading the next. */
  ghost predicate IsChain(fragments: Fragments, chain: seq<string>) {
    && |chain| >= 2
    && (forall i :: 0 <= i < |chain| ==> chain[i] in fragments)
    && (forall i :: 0 <= i < |chain| - 1 ==> chain[i + 1] in Spreads(fragments[chain[i]]))
  }

  ghost predicate Reaches(fragments: Fragments, f: string, g: string) {
    exists chain :: IsChain(fragments, chain) && chain[0] == f && chain[|chain| - 1] == g
  }

  /** No fragment can reach a spread of itself. */
  ghost predicate NoCycles(fragments: Fragments) {
    forall f :: f in fragments ==> !Reaches(fragments, f, f)
  }

  ghost function Reachable(fragments: Fragments, f: string): set<string> {
    set g | g in fragments && Reaches(fragments, f, g)
  }

  lemma EdgeReaches(fragments: Fragments, f: string, g: string)
    requires f in fragments && g in fragments && g in Spreads(fragments[f])
    ensures Reaches(fragments, f, g)
    ensures forall h :: Reaches(fragments, g, h) ==> Reaches(fragments, f, h)
  {
    assert IsChain(fragments, [f, g]) && [f, g][1] == g;
    forall h | Reaches(fragments, g, h) ensures Reaches(fragments, f, h) {
      var chain :| IsChain(fragments, chain) && chain[0] == g && chain[|chain| - 1] == h;
      var longer := [f] + chain;
      assert forall i :: 0 < i < |longer| ==> longer[i] == chain[i - 1];
      assert IsChain(fragments, longer) && longer[0] == f && longer[|longer| - 1] == h;
    }
  }

  lemma EdgeShrinksReach(fragments: Fragments, f: string, g: string)
    requires NoCycles(fragments) && f in fragments && g in fragments && g in Spreads(fragments[f])
    ensures |Reachable(fragments, g)| < |Reachable(fragments, f)|
  {
    EdgeReaches(fragments, f, g);
    assert g in Reachable(fragments, f) && g !in Reachable(fragments, g);
    SubsetSize(Reachable(fragments, g), Reachable(fragments, f) - {g});
  }

  /** How many fragments each can reach. */
  ghost function Ranks(fragments: Fragments): map<string, nat> {
    map f | f in fragments :: |Reachable(fragments, f)|
  }

  lemma {:induction false} SpreadsRankBelow(fragments: Fragments, rank: map<string, nat>, ss: seq<Selection>,
                                            bound: nat)
    ensures RanksBelow(fragments, rank, ss, bound)
            <==> forall g :: g in Spreads(ss) && g in fragments ==> g in rank && rank[g] < bound
    decreases ss
  {
    if ss != [] {
      SpreadsRankBelow(fragments, rank, ss[1..], bound);
      RanksBelowCons(fragments, rank, ss, bound);
      if !ss[0].Spread? {
        SpreadsRankBelow(fragments, rank, ss[0].sub, bound);
      }
    }
  }

  ghost predicate RankBelow(fragments: Fragments, rank: map<string, nat>, s: Selection, bound: nat) {
    if s.Spread? then s.fragment in fragments ==> s.fragment in rank && rank[s.fragment] < bound
    else RanksBelow(fragments, rank, s.sub, bound)
  }

  lemma RanksBelowCons(fragments: Fragments, rank: map<string, nat>, ss: seq<Selection>, bound: nat)
    requires ss != []
    ensures RanksBelow(fragments, rank, ss, bound)
            <==> RankBelow(fragments, rank, ss[0], bound) && RanksBelow(fragments, rank, ss[1..], bound)
  {
    assert forall i :: 0 <= i < |ss[1..]| ==> ss[1..][i] == ss[i + 1];
    assert forall i :: 0 < i < |ss| ==> ss[i] == ss[1..][i - 1];
  }

  lemma {:induction false} ChainsDescend(fragments: Fragments, rank: map<string, nat>, chain: seq<string>)
    requires Acyclic(fragments, rank) && IsChain(fragments, chain)
    ensures rank[chain[|chain| - 1]] < rank[chain[0]]
    decreases |chain|
  {
    SpreadsRankBelow(fragments, rank, fragments[chain[0]], rank[chain[0]]);
    assert chain[1] in Spreads(fragments[chain[0]]);
    if |chain| > 2 {
      assert forall i :: 0 <= i < |chain[1..]| ==> chain[1..][i] == chain[i + 1];
      ChainsDescend(fragments, rank, chain[1..]);
    }
  }

  /** There is no cycle exactly when fragments can be ranked, for one by how many
      fragments each reaches. */
  lemma NoCyclesIff(fragments: Fragments)
    ensures NoCycles(fragments) ==> Acyclic(fragments, Ranks(fragments))
    ensures NoCycles(fragments) <==> exists rank :: Acyclic(fragments, rank)
  {
    if NoCycles(fragments) {
      var rank := Ranks(fragments);
      forall f | f in fragments ensures RanksBelow(fragments, rank, fragments[f], rank[f]) {
        forall g | g in Spreads(fragments[f]) && g in fragments ensures rank[g] < rank[f] {
          EdgeShrinksReach(fragments, f, g);
        }
        SpreadsRankBelow(fragments, rank, fragments[f], rank[f]);
      }
      assert Acyclic(fragments, rank);
    }
    if rank :| Acyclic(fragments, rank) {
      forall f | f in fragments ensures !Reaches(fragments, f, f) {
        if chain :| IsChain(fragments, chain) && chain[0] == f && chain[|chain| - 1] == f {
          ChainsDescend(fragments, rank, chain);
          assert false;
        }
      }
    }
  }

  lemma RanksFit(fragments: Fragments, ss: seq<Selection>)
    requires NoCycles(fragments)
    ensures Acyclic(fragments, Ranks(fragments)) && RanksBelow(fragments, Ranks(fragments), ss, |fragments| + 1)
  {
    NoCyclesIff(fragments);
    forall f | f in fragments ensures Ranks(fragments)[f] < |fragments| + 1 {
      SubsetSize(Reachable(fragments, f), fragments.Keys);
    }
    EverythingRanks(fragments, Ranks(fragments), ss, |fragments| + 1);
  }

  /** Every spread replaced, all the way down. */
  ghost function FullyInlined(fragments: Fragments, ss: seq<Selection>): seq<Selection>
    requires NoCycles(fragments)
  {
    RanksFit(fragments, ss);
    Inlined(fragments, Ranks(fragments), ss, |fragments| + 1)
  }

  /** Without fragment cycles the depth is the height of the fully inlined selection set. */
  lemma AcyclicDepth(fragments: Fragments, ss: seq<Selection>)
    requires NoCycles(fragments)
    ensures Depth(fragments, ss, {}) == Height(FullyInlined(fragments, ss))
  {
    RanksFit(fragments, ss);
    DepthIsInlinedHeight(fragments, Ranks(fragments), ss, |fragments| + 1, {});
  }

  // ---------------------------------------------------------------- introspection without routes

  /** The names of all fields in `ss`, fragments aside. */
  function FieldNames(ss: seq<Selection>): set<string>
    decreases ss
  {
    if ss == [] then {}
    else
      var first := match ss[0]
        case Field(name, sub) => {name} + FieldNames(sub)
        case Inline(sub) => FieldNames(sub)
        case Spread(_) => {};
      first + FieldNames(ss[1..])
  }

  predicate NamesSchema(ss: seq<Selection>) {
    "__schema" in FieldNames(ss) || "__type" in FieldNames(ss)
  }

  /** A defined fragment that `ss` spreads, directly or through others. */
  ghost predicate Within(fragments: Fragments, ss: seq<Selection>, f: string) {
    && f in fragments
    && (f in Spreads(ss) || exists g :: g in Spreads(ss) && g in fragments && Reaches(fragments, g, f))
  }

  ghost predicate AsksForSchema(fragments: Fragments, ss: seq<Selection>) {
    NamesSchema(ss) || exists f :: Within(fragments, ss, f) && NamesSchema(fragments[f])
  }

  lemma {:induction false} MemberNames(ss: seq<Selection>, i: nat)
    requires i < |ss|
    ensures match ss[i]
            case Field(name, sub) =>
              name in FieldNames(ss) && FieldNames(sub) <= FieldNames(ss) && Spreads(sub) <= Spreads(ss)
            case Inline(sub) => FieldNames(sub) <= FieldNames(ss) && Spreads(sub) <= Spreads(ss)
            case Spread(f) => f in Spreads(ss)
    decreases i
  {
    if i > 0 {
      assert ss[1..][i - 1] == ss[i];
      MemberNames(ss[1..], i - 1);
    }
  }

  lemma WithinBody(fragments: Fragments, ss: seq<Selection>, f: string, g: string)
    requires f in fragments && f in Spreads(ss) && Within(fragments, fragments[f], g)
    ensures Within(fragments, ss, g)
  {
    if g in Spreads(fragments[f]) {
      EdgeReaches(fragments, f, g);
    } else {
      var h :| h in Spreads(fragments[f]) && h in fragments && Reaches(fragments, h, g);
      EdgeReaches(fragments, f, h);
    }
  }

  lemma {:induction false} RouteAsks(fragments: Fragments, ss: seq<Selection>, r: Route)
    requires Possible(fragments, ss, r) && EndsInIntrospection(fragments, ss, r)
    ensures AsksForSchema(fragments, ss)
    decreases r
  {
    var s := ss[r.index];
    MemberNames(ss, r.index);
    if !(r.rest.Stop? && s.Field? && IsIntrospection(s.name)) {
      RouteAsks(fragments, Below(fragments, s), r.rest);
      if s.Spread? {
        if NamesSchema(fragments[s.fragment]) {
          assert Within(fragments, ss, s.fragment);
        } else {
          var g :| Within(fragments, fragments[s.fragment], g) && NamesSchema(fragments[g]);
          WithinBody(fragments, ss, s.fragment, g);
        }
      } else if !NamesSchema(ss) {
        var g :| Within(fragments, s.sub, g) && NamesSchema(fragments[g]);
        assert Within(fragments, ss, g);
      }
    }
  }

  ghost predicate Reached(fragments: Fragments, ss: seq<Selection>) {
    exists r :: Possible(fragments, ss, r) && EndsInIntrospection(fragments, ss, r)
  }

  lemma ReachedThrough(fragments: Fragments, ss: seq<Selection>, i: nat)
    requires i < |ss| && (ss[i].Spread? ==> ss[i].fragment in fragments) && Reached(fragments, Below(fragments, ss[i]))
    ensures Reached(fragments, ss)
  {
    var rest :| Possible(fragments, Below(fragments, ss[i]), rest)
                && EndsInIntrospection(fragments, Below(fragments, ss[i]), rest);
    var r := Enter(i, rest);
    assert Possible(fragments, ss, r) && EndsInIntrospection(fragments, ss, r);
  }

  lemma ReachedLater(fragments: Fragments, ss: seq<Selection>)
    requires ss != [] && Reached(fragments, ss[1..])
    ensures Reached(fragments, ss)
  {
    var r :| Possible(fragments, ss[1..], r) && EndsInIntrospection(fragments, ss[1..], r);
    var r' := Enter(r.index + 1, r.rest);
    assert ss[r.index + 1] == ss[1..][r.index];
    assert Possible(fragments, ss, r') && EndsInIntrospection(fragments, ss, r');
  }

  lemma {:induction false} NamedIsReached(fragments: Fragments, ss: seq<Selection>)
    requires NamesSchema(ss)
    ensures Reached(fragments, ss)
    decreases ss
  {
    if NamesSchema(ss[1..]) {
      NamedIsReached(fragments, ss[1..]);
      ReachedLater(fragments, ss);
    } else if ss[0].Field? && (ss[0].name == "__schema" || ss[0].name == "__type") {
      assert Possible(fragments, ss, Enter(0, Stop)) && EndsInIntrospection(fragments, ss, Enter(0, Stop));
    } else {
      NamedIsReached(fragments, ss[0].sub);
      ReachedThrough(fragments, ss, 0);
    }
  }

  lemma {:induction false} SpreadIsReached(fragments: Fragments, ss: seq<Selection>, f: string)
    requires f in Spreads(ss) && f in fragments && Reached(fragments, fragments[f])
    ensures Reached(fragments, ss)
    decreases ss
  {
    if f in Spreads(ss[1..]) {
      SpreadIsReached(fragments, ss[1..], f);
      ReachedLater(fragments, ss);
    } else {
      if !ss[0].Spread? {
        SpreadIsReached(fragments, ss[0].sub, f);
      }
      ReachedThrough(fragments, ss, 0);
    }
  }

  lemma {:induction false} ChainIsReached(fragments: Fragments, chain: seq<string>)
    requires IsChain(fragments, chain) && Reached(fragments, fragments[chain[|chain| - 1]])
    ensures Reached(fragments, fragments[chain[0]])
    decreases |chain|
  {
    if |chain| > 2 {
      assert forall i :: 0 <= i < |chain[1..]| ==> chain[1..][i] == chain[i + 1];
      ChainIsReached(fragments, chain[1..]);
    }
    assert chain[1] in Spreads(fragments[chain[0]]);
    SpreadIsReached(fragments, fragments[chain[0]], chain[1]);
  }

  /** An introspection field can be reached exactly when a field named __schema or
      __type stands in the selection set or in a fragment it spreads, directly or
      through others. */
  lemma AsksIffReachable(fragments: Fragments, ss: seq<Selection>)
    ensures AsksForSchema(fragments, ss) <==> Reached(fragments, ss)
  {
    if Reached(fragments, ss) {
      var r :| Possible(fragments, ss, r) && EndsInIntrospection(fragments, ss, r);
      RouteAsks(fragments, ss, r);
    }
    if AsksForSchema(fragments, ss) {
      AskedIsReached(fragments, ss);
    }
  }

  lemma AskedIsReached(fragments: Fragments, ss: seq<Selection>)
    requires AsksForSchema(fragments, ss)
    ensures Reached(fragments, ss)
  {
    if NamesSchema(ss) {
      NamedIsReached(fragments, ss);
    } else if f :| Within(fragments, ss, f) && NamesSchema(fragments[f]) {
      NamedIsReached(fragments, fragments[f]);
      if f in Spreads(ss) {
        SpreadIsReached(fragments, ss, f);
      } else {
        var g :| g in Spreads(ss) && g in fragments && Reaches(fragments, g, f);
        var chain :| IsChain(fragments, chain) && chain[0] == g && chain[|chain| - 1] == f;
        ChainIsReached(fragments, chain);
        SpreadIsReached(fragments, ss, g);
      }
    }
  }

  /** `k` fields inside one another. */
  function Nested(k: nat): seq<Selection> {
    if k == 0 then [] else [Field("f", Nested(k - 1))]
  }

  lemma {:induction false} NestedFieldsCount(fragments: Fragments, k: nat, visited: set<string>)
    ensures Depth(fragments, Nested(k), visited) == k == Height(Nested(k))
  {
    if k > 0 {
      NestedFieldsCount(fragments, k - 1, visited);
      assert Nested(k)[1..] == [];
    }
  }

  // ---------------------------------------------------------------- a whole document

  /** The greatest of these over the operations of a document, 0 without any. */
  ghost predicate IsGreatest(doc: seq<Definition>, measure: seq<Selection> -> nat, d: nat) {
    && (forall i :: 0 <= i < |doc| && doc[i].Operation? ==> measure(doc[i].selections) <= d)
    && (d == 0 || exists i :: 0 <= i < |doc| && doc[i].Operation? && measure(doc[i].selections) == d)
  }

  function DepthIn(fragments: Fragments): seq<Selection> -> nat {
    ss => Depth(fragments, ss, {})
  }

  /** Defined for documents without cycles. */
  ghost function InlinedHeightIn(fragments: Fragments): seq<Selection> -> nat {
    ss => if NoCycles(fragments) then Height(FullyInlined(fragments, ss)) else 0
  }

  lemma SameGreatest(doc: seq<Definition>, a: seq<Selection> -> nat, b: seq<Selection> -> nat, d: nat)
    requires IsGreatest(doc, a, d) && forall ss :: a(ss) == b(ss)
    ensures IsGreatest(doc, b, d)
  {
    if d != 0 {
      var i :| 0 <= i < |doc| && doc[i].Operation? && a(doc[i].selections) == d;
      assert b(doc[i].selections) == d;
    }
  }

  // ---------------------------------------------------------------- the code

  /** The mutable `visited` map that one walk hands down. */
  class VisitedNames {
    var names: set<string>

    constructor ()
      ensures names == {}
    {
      names := {};
    }
  }

  method SelectionSetDepth(ss: seq<Selection>, fragments: Fragments, visited: VisitedNames) returns (maxDepth: nat)
    modifies visited
    ensures visited.names == old(visited.names)
    ensures maxDepth == Depth(fragments, ss, old(visited.names))
    decreases fragments.Keys - visited.names, ss
  {
    maxDepth := 0;
    ghost var open := visited.names;
    for i := 0 to |ss|
      invariant visited.names == open
      invariant Depth(fragments, ss, open) ==
                (if maxDepth > Depth(fragments, ss[i..], open) then maxDepth else Depth(fragments, ss[i..], open))
    {
      var childDepth := 0;
      var s := ss[i];
      assert ss[i..][0] == s && ss[i..][1..] == ss[i + 1..];
      match s {
        case Field(_, sub) =>
          var d := SelectionSetDepth(sub, fragments, visited);
          childDepth := 1 + d;
        case Inline(sub) =>
          childDepth := SelectionSetDepth(sub, fragments, visited);
        case Spread(name) =>
          if name !in visited.names && name in fragments {
            assert name in fragments.Keys - open;
            visited.names := visited.names + {name};
            childDepth := SelectionSetDepth(fragments[name], fragments, visited);
            visited.names := visited.names - {name};
          }
      }
      assert childDepth == SelectionDepth(fragments, s, open);
      if childDepth > maxDepth {
        maxDepth := childDepth;
      }
    }
  }

  /** On an early `true` the walk leaves its open fragments behind in `visited`. */
  method SelectionSetHasIntrospection(ss: seq<Selection>, fragments: Fragments, visited: VisitedNames)
      returns (found: bool)
    modifies visited
    ensures found <==> HasIntrospection(fragments, ss, old(visited.names))
    ensures !found ==> visited.names == old(visited.names)
    ensures old(visited.names) <= visited.names
    decreases fragments.Keys - visited.names, ss
  {
    ghost var open := visited.names;
    for i := 0 to |ss|
      invariant visited.names == open
      invariant HasIntrospection(fragments, ss, open) <==> HasIntrospection(fragments, ss[i..], open)
    {
      var s := ss[i];
      assert ss[i..][0] == s && ss[i..][1..] == ss[i + 1..];
      match s {
        case Field(name, sub) =>
          if name == "__schema" || name == "__type" {
            return true;
          }
          var inside := SelectionSetHasIntrospection(sub, fragments, visited);
          if inside {
            return true;
          }
        case Inline(sub) =>
          var inside := SelectionSetHasIntrospection(sub, fragments, visited);
          if inside {
            return true;
          }
        case Spread(name) =>
          if name !in visited.names && name in fragments {
            assert name in fragments.Keys - open;
            visited.names := visited.names + {name};
            var inside := SelectionSetHasIntrospection(fragments[name], fragments, visited);
            if inside {
              return true;
            }
            visited.names := visited.names - {name};
          }
      }
    }
    found := false;
  }

  method Fragmentize(doc: seq<Definition>) returns (fragments: Fragments)
    ensures fragments == CollectFragments(doc)
    ensures forall name :: name in fragments <==> exists i :: 0 <= i < |doc| && doc[i].Fragment? && doc[i].name == name
    ensures forall i, name :: 0 <= i < |doc| && LastNamed(doc, i, name) ==>
              name in fragments && fragments[name] == doc[i].selections
  {
    fragments := map[];
    for i := 0 to |doc|
      invariant fragments == CollectFragments(doc[..i])
    {
      assert doc[..i + 1][..i] == doc[..i];
      if doc[i].Fragment? {
        fragments := fragments[doc[i].name := doc[i].selections];
      }
    }
    assert doc[..|doc|] == doc;
    forall name {
      CollectedIff(doc, name);
    }
  }

  /** The greatest depth over the operations of the document; each starts with a
      fresh `visited`. */
  method ComputeQueryDepth(doc: seq<Definition>) returns (maxDepth: nat)
    ensures IsGreatest(doc, DepthIn(CollectFragments(doc)), maxDepth)
    ensures NoCycles(CollectFragments(doc)) ==> IsGreatest(doc, InlinedHeightIn(CollectFragments(doc)), maxDepth)
  {
    var fragments := Fragmentize(doc);
    maxDepth := 0;
    for i := 0 to |doc|
      invariant forall j :: 0 <= j < i && doc[j].Operation? ==> Depth(fragments, doc[j].selections, {}) <= maxDepth
      invariant maxDepth == 0 ||
                exists j :: 0 <= j < i && doc[j].Operation? && Depth(fragments, doc[j].selections, {}) == maxDepth
    {
      if doc[i].Operation? {
        var visited := new VisitedNames();
        var depth := SelectionSetDepth(doc[i].selections, fragments, visited);
        if depth > maxDepth {
          maxDepth := depth;
        }
      }
    }
    DocumentDepth(doc, fragments, maxDepth);
  }

  /** What the loop has established, said of the whole document. */
  lemma DocumentDepth(doc: seq<Definition>, fragments: Fragments, d: nat)
    requires forall j :: 0 <= j < |doc| && doc[j].Operation? ==> Depth(fragments, doc[j].selections, {}) <= d
    requires d == 0 ||
             exists j :: 0 <= j < |doc| && doc[j].Operation? && Depth(fragments, doc[j].selections, {}) == d
    ensures IsGreatest(doc, DepthIn(fragments), d)
    ensures NoCycles(fragments) ==> IsGreatest(doc, InlinedHeightIn(fragments), d)
  {
    if d != 0 {
      var j :| 0 <= j < |doc| && doc[j].Operation? && Depth(fragments, doc[j].selections, {}) == d;
      assert DepthIn(fragments)(doc[j].selections) == d;
    }
    if NoCycles(fragments) {
      forall ss ensures DepthIn(fragments)(ss) == InlinedHeightIn(fragments)(ss) {
        AcyclicDepth(fragments, ss);
      }
      SameGreatest(doc, DepthIn(fragments), InlinedHeightIn(fragments), d);
    }
  }

  method ContainsIntrospection(doc: seq<Definition>) returns (found: bool)
    ensures found <==> exists i, r :: 0 <= i < |doc| && doc[i].Operation?
                         && Possible(CollectFragments(doc), doc[i].selections, r)
                         && EndsInIntrospection(CollectFragments(doc), doc[i].selections, r)
    ensures found <==> exists i :: 0 <= i < |doc| && doc[i].Operation?
                         && AsksForSchema(CollectFragments(doc), doc[i].selections)
  {
    var fragments := Fragmentize(doc);
    forall i | 0 <= i < |doc| && doc[i].Operation? {
      AsksIffReachable(fragments, doc[i].selections);
    }
    for i := 0 to |doc|
      invariant forall j :: 0 <= j < i && doc[j].Operation? ==> !HasIntrospection(fragments, doc[j].selections, {})
    {
      if doc[i].Operation? {
        var visited := new VisitedNames();
        var inside := SelectionSetHasIntrospection(doc[i].selections, fragments, visited);
        if inside {
          IntrospectionIffReachable(fragments, doc[i].selections);
          return true;
        }
      }
    }
    forall j | 0 <= j < |doc| && doc[j].Operation?
      ensures !exists r ::
                Possible(fragments, doc[j].selections, r) && EndsInIntrospection(fragments, doc[j].selections, r)
    {
      IntrospectionIffReachable(fragments, doc[j].selections);
    }
    found := false;
  }
}
