/** Running the built query over a fixed table, and paging through it. */
module ProductPaging {
  import opened Catalog
  import opened ProductQuery

  // ---------------------------------------------------------------- ORDER BY product_hash

  predicate Ascending(hs: seq<string>) {
    forall i, j :: 0 <= i < j < |hs| ==> Less(hs[i], hs[j])
  }

  ghost predicate IsLeast(hs: set<string>, m: string) {
    m in hs && forall h :: h in hs ==> h == m || Less(m, h)
  }

  lemma {:induction false} LeastExists(hs: set<string>) returns (m: string)
    requires hs != {}
    ensures IsLeast(hs, m)
  {
    var x :| x in hs;
    if hs == {x} {
      m := x;
    } else {
      m := LeastExists(hs - {x});
      LessTotal(m, x);
      if Less(x, m) {
        forall h | h in hs ensures h == x || Less(x, h) {
          if h != x && h != m { LessTransitive(x, m, h); }
        }
        m := x;
      }
    }
  }

  /** The hashes of `hs` in ascending order. */
  ghost function Ordered(hs: set<string>): (r: seq<string>)
    ensures Ascending(r)
    ensures forall h :: h in r <==> h in hs
  {
    if hs == {} then []
    else
      assert exists m :: IsLeast(hs, m) by { var m := LeastExists(hs); }
      var m :| IsLeast(hs, m);
      var rest := Ordered(hs - {m});
      assert forall i :: 0 <= i < |rest| ==> rest[i] in rest;
      [m] + rest
  }

  /** There is only one ascending listing of a set. */
  lemma {:induction false} AscendingIsUnique(a: seq<string>, b: seq<string>)
    requires Ascending(a) && Ascending(b)
    requires forall h :: h in a <==> h in b
    ensures a == b
  {
    NonemptyHasMember(a);
    NonemptyHasMember(b);
    if a != [] && b != [] {
      SameHead(a, b);
      forall h ensures h in a[1..] <==> h in b[1..] {
        TailMembers(a, h);
        TailMembers(b, h);
      }
      AscendingIsUnique(a[1..], b[1..]);
      assert a == [a[0]] + a[1..] && b == [b[0]] + b[1..];
    }
  }

  lemma NonemptyHasMember(a: seq<string>)
    ensures a != [] ==> a[0] in a
  {
  }

  lemma SameHead(a: seq<string>, b: seq<string>)
    requires Ascending(a) && Ascending(b) && a != [] && b != [] && a[0] in b && b[0] in a
    ensures a[0] == b[0]
  {
    if a[0] != b[0] {
      var i :| 0 <= i < |b| && b[i] == a[0];
      var j :| 0 <= j < |a| && a[j] == b[0];
      LessTransitive(a[0], b[0], a[0]);
      LessIrreflexive(a[0]);
    }
  }

  lemma TailMembers(a: seq<string>, h: string)
    requires Ascending(a) && a != []
    ensures h in a[1..] <==> h in a && h != a[0]
  {
    if h in a[1..] {
      var i :| 1 <= i < |a| && a[i] == h;
      LessIrreflexive(a[0]);
    }
  }

  function Above(hs: set<string>, x: string): set<string> {
    set h | h in hs && Less(x, h)
  }

  /** What lies strictly above the k-th hash is the listing from k + 1 on. */
  lemma AboveIsSuffix(hs: set<string>, k: nat)
    requires k < |Ordered(hs)|
    ensures Ordered(Above(hs, Ordered(hs)[k])) == Ordered(hs)[k + 1..]
  {
    var all := Ordered(hs);
    var above := Above(hs, all[k]);
    forall h ensures h in all[k + 1..] <==> h in above {
      if h in all[k + 1..] {
        var i :| k < i < |all| && all[i] == h;
      }
      if h in above {
        var i :| 0 <= i < |all| && all[i] == h;
        if i <= k {
          LessIrreflexive(h);
          if i < k { LessTransitive(h, all[k], h); }
        }
      }
    }
    AscendingIsUnique(Ordered(above), all[k + 1..]);
  }

  // ---------------------------------------------------------------- running a query

  function Take(hs: seq<string>, n: int): seq<string> {
    if n <= 0 then [] else hs[..Min(n, |hs|)]
  }

  function Drop(hs: seq<string>, n: int): seq<string> {
    if n <= 0 then hs else hs[Min(n, |hs|)..]
  }

  /** The hashes the database returns for a built query, in order. */
  ghost function Execute(regex: Regex, table: Table, q: Query): seq<string> {
    var rows := Ordered(set h | h in table && AllHold(regex, q.args, q.clauses, table[h].product));
    match q.tail
    case LimitOnly(a) =>
      var n := NumberArg(q.args, a);
      if n.Some? then Take(rows, n.value) else rows
    case LimitOffset(a, b) =>
      var n, skip := NumberArg(q.args, a), NumberArg(q.args, b);
      if n.Some? && skip.Some? then Take(Drop(rows, skip.value), n.value) else rows
  }

  ghost function Matching(regex: Regex, table: Table, f: Filter): set<string> {
    set h | h in table && Selects(regex, f, table[h].product)
  }

  /** One page as the filter describes it. */
  ghost function Page(regex: Regex, table: Table, f: Filter): seq<string> {
    var rows := Ordered(Matching(regex, table, f));
    Take(if f.afterHash == "" then Drop(rows, f.offset) else rows, EffectiveLimit(f.limit))
  }

  /** Whatever query the builder produced, the database answers with that page. */
  lemma CompiledQueryReturnsPage(regex: Regex, table: Table, f: Filter, q: Query)
    requires Compiled(regex, f, q)
    ensures Execute(regex, table, q) == Page(regex, table, f)
  {
    assert (set h | h in table && AllHold(regex, q.args, q.clauses, table[h].product)) == Matching(regex, table, f);
  }

  /** A page has the rows from the offset on, at most as many as the limit. */
  lemma PageMeans(regex: Regex, table: Table, f: Filter)
    requires f.afterHash == ""
    ensures var rows, page := Ordered(Matching(regex, table, f)), Page(regex, table, f);
            var skip := if f.offset <= 0 then 0 else f.offset;
            var most := if 1 <= f.limit <= 5000 then f.limit else 5000;
            && |page| == (if |rows| <= skip then 0 else if |rows| - skip < most then |rows| - skip else most)
            && forall i :: 0 <= i < |page| ==> page[i] == rows[skip + i]
  {
  }

  // ---------------------------------------------------------------- paging

  predicate Keyed(table: Table) {
    forall h :: h in table ==> h != "" && table[h].product.hash == h
  }

  /** The unpaged listing of a filter that names no page. */
  ghost function Listing(regex: Regex, table: Table, f: Filter): seq<string> {
    Ordered(Matching(regex, table, f.(afterHash := "")))
  }

  /** A cursor that is the k-th hash of the listing continues right after it. */
  lemma CursorContinues(regex: Regex, table: Table, f: Filter, k: nat)
    requires Keyed(table) && k < |Listing(regex, table, f)|
    ensures var all := Listing(regex, table, f);
            && all[k] != ""
            && Page(regex, table, f.(afterHash := all[k])) == Take(all[k + 1..], EffectiveLimit(f.limit))
  {
    var all := Listing(regex, table, f);
    var hs := Matching(regex, table, f.(afterHash := ""));
    assert all[k] in hs;
    var g := f.(afterHash := all[k]);
    assert Matching(regex, table, g) == Above(hs, all[k]);
    AboveIsSuffix(hs, k);
  }

  /** Following the cursor until a page comes back empty. */
  ghost function KeysetPages(regex: Regex, table: Table, f: Filter, after: string): seq<string>
    requires Keyed(table)
    decreases Matching(regex, table, f.(afterHash := after, offset := 0))
  {
    var page := Page(regex, table, f.(afterHash := after, offset := 0));
    if page == [] then []
    else
      var last := page[|page| - 1];
      assert Matching(regex, table, f.(afterHash := last, offset := 0))
           < Matching(regex, table, f.(afterHash := after, offset := 0)) by {
        CursorAdvances(regex, table, f.(offset := 0), after, last);
      }
      page + KeysetPages(regex, table, f, last)
  }

  lemma CursorAdvances(regex: Regex, table: Table, f: Filter, after: string, last: string)
    requires Keyed(table) && last in Matching(regex, table, f.(afterHash := after))
    ensures Matching(regex, table, f.(afterHash := last)) < Matching(regex, table, f.(afterHash := after))
  {
    var now, next := Matching(regex, table, f.(afterHash := after)), Matching(regex, table, f.(afterHash := last));
    LessIrreflexive(last);
    assert last !in next;
    forall h | h in next ensures h in now {
      if after != "" {
        LessTransitive(after, last, h);
      }
    }
  }

  /** Keyset paging from the k-th hash on yields the rest of the listing. */
  lemma {:induction false} PagesFromCursor(regex: Regex, table: Table, f: Filter, k: nat)
    requires Keyed(table) && f.offset == 0 && k < |Listing(regex, table, f)|
    ensures KeysetPages(regex, table, f, Listing(regex, table, f)[k]) == Listing(regex, table, f)[k + 1..]
    decreases |Listing(regex, table, f)| - k
  {
    var all, n := Listing(regex, table, f), EffectiveLimit(f.limit);
    CursorContinues(regex, table, f, k);
    assert f.(afterHash := all[k], offset := 0) == f.(afterHash := all[k]);
    var page := Take(all[k + 1..], n);
    PageSplits(all, k + 1, n);
    if page != [] {
      PagesFromCursor(regex, table, f, k + |page|);
    }
  }

  lemma PageSplits(all: seq<string>, k: nat, n: int)
    requires k <= |all| && n > 0
    ensures var page := Take(all[k..], n);
            if page == [] then all[k..] == []
            else page[|page| - 1] == all[k + |page| - 1] && all[k..] == page + all[k + |page|..]
  {
  }

  /** For every table, filter and limit: following AfterHash terminates and
      yields every matching row exactly once, in hash order. */
  lemma KeysetPagingIsComplete(regex: Regex, table: Table, f: Filter)
    requires Keyed(table)
    ensures KeysetPages(regex, table, f, "") == Listing(regex, table, f)
    ensures Ascending(Listing(regex, table, f))
    ensures forall h ::
              h in Listing(regex, table, f) <==> h in table && Selects(regex, f.(afterHash := ""), table[h].product)
  {
    KeysetPagesAll(regex, table, f);
  }

  lemma KeysetPagesAll(regex: Regex, table: Table, f: Filter)
    requires Keyed(table)
    ensures KeysetPages(regex, table, f, "") == Listing(regex, table, f)
  {
    var g := f.(offset := 0, afterHash := "");
    var all, n := Listing(regex, table, f), EffectiveLimit(f.limit);
    assert Matching(regex, table, g) == Matching(regex, table, f.(afterHash := ""));
    var page := Take(all, n);
    assert page == Page(regex, table, g);
    PageSplits(all, 0, n);
    assert all[0..] == all;
    if page != [] {
      var last := |page| - 1;
      PagesFromCursor(regex, table, g, last);
      SameSearch(regex, table, f, all[last]);
    }
  }

  lemma {:induction false} SameSearch(regex: Regex, table: Table, f: Filter, after: string)
    requires Keyed(table)
    ensures KeysetPages(regex, table, f, after) == KeysetPages(regex, table, f.(offset := 0, afterHash := ""), after)
    decreases Matching(regex, table, f.(afterHash := after, offset := 0))
  {
    var g := f.(offset := 0, afterHash := "");
    assert g.(afterHash := after, offset := 0) == f.(afterHash := after, offset := 0);
    var page := Page(regex, table, f.(afterHash := after, offset := 0));
    if page != [] {
      var last := page[|page| - 1];
      CursorAdvances(regex, table, f.(offset := 0), after, last);
      SameSearch(regex, table, f, last);
    }
  }

  /** The legacy offset path cuts the same listing: page k of the offset walk is
      page k of the cursor walk. */
  lemma OffsetPagesAgree(regex: Regex, table: Table, f: Filter, k: nat)
    requires Keyed(table) && f.afterHash == ""
    ensures var all, n := Listing(regex, table, f), EffectiveLimit(f.limit);
            var page := Page(regex, table, f.(offset := k * n));
            && page == Take(Drop(all, k * n), n)
            && (0 < k * n <= |all| ==> page == Page(regex, table, f.(offset := 0, afterHash := all[k * n - 1])))
  {
    var all, n := Listing(regex, table, f), EffectiveLimit(f.limit);
    var at := k * n;
    OffsetCuts(regex, table, f, at);
    if 0 < at <= |all| {
      CursorCuts(regex, table, f, at);
    }
  }

  lemma CursorCuts(regex: Regex, table: Table, f: Filter, at: nat)
    requires Keyed(table) && 0 < at <= |Listing(regex, table, f)|
    ensures var all := Listing(regex, table, f);
            Page(regex, table, f.(offset := 0, afterHash := all[at - 1])) == Take(Drop(all, at), EffectiveLimit(f.limit))
  {
    var all := Listing(regex, table, f);
    assert Listing(regex, table, f.(offset := 0)) == all by {
      assert Matching(regex, table, f.(offset := 0, afterHash := "")) == Matching(regex, table, f.(afterHash := ""));
    }
    CursorContinues(regex, table, f.(offset := 0), at - 1);
  }

  /** Raising the offset page by page, from page `k` until one comes back empty. */
  ghost function OffsetPages(regex: Regex, table: Table, f: Filter, k: nat): seq<string>
    requires Keyed(table) && f.afterHash == ""
    decreases |Listing(regex, table, f)| - k * EffectiveLimit(f.limit)
  {
    var page := Page(regex, table, f.(offset := k * EffectiveLimit(f.limit)));
    OffsetCuts(regex, table, f, k * EffectiveLimit(f.limit));
    if page == [] then []
    else
      NextOffset(k, EffectiveLimit(f.limit));
      page + OffsetPages(regex, table, f, k + 1)
  }

  lemma OffsetCuts(regex: Regex, table: Table, f: Filter, at: nat)
    requires Keyed(table) && f.afterHash == ""
    ensures Page(regex, table, f.(offset := at)) == Take(Drop(Listing(regex, table, f), at), EffectiveLimit(f.limit))
  {
    assert Matching(regex, table, f.(offset := at)) == Matching(regex, table, f.(afterHash := ""));
  }

  lemma NextOffset(k: nat, n: int)
    requires n > 0
    ensures (k + 1) * n == k * n + n && k * n >= 0
  {
  }

  lemma OffsetPagesUnfold(regex: Regex, table: Table, f: Filter, k: nat, at: nat)
    requires Keyed(table) && f.afterHash == "" && at == k * EffectiveLimit(f.limit)
    ensures var page := Take(Drop(Listing(regex, table, f), at), EffectiveLimit(f.limit));
            OffsetPages(regex, table, f, k) == if page == [] then [] else page + OffsetPages(regex, table, f, k + 1)
  {
    OffsetCuts(regex, table, f, at);
  }

  lemma {:induction false} OffsetPagesFrom(regex: Regex, table: Table, f: Filter, k: nat, at: nat)
    requires Keyed(table) && f.afterHash == "" && at == k * EffectiveLimit(f.limit)
    ensures OffsetPages(regex, table, f, k) == Drop(Listing(regex, table, f), at)
    decreases |Listing(regex, table, f)| - at
  {
    var all, n := Listing(regex, table, f), EffectiveLimit(f.limit);
    OffsetPagesUnfold(regex, table, f, k, at);
    NextOffset(k, n);
    TakeThenDrop(all, at, n);
    if at < |all| {
      OffsetPagesFrom(regex, table, f, k + 1, at + n);
    }
  }

  lemma TakeThenDrop(all: seq<string>, at: nat, n: int)
    requires n > 0
    ensures Take(Drop(all, at), n) + Drop(all, at + n) == Drop(all, at)
    ensures Take(Drop(all, at), n) == [] <==> at >= |all|
    ensures at >= |all| ==> Drop(all, at) == []
  {
  }

  /** Both ways of paging yield the same sequence, the whole listing. */
  lemma PagingStylesAgree(regex: Regex, table: Table, f: Filter)
    requires Keyed(table) && f.afterHash == ""
    ensures OffsetPages(regex, table, f, 0) == Listing(regex, table, f) == KeysetPages(regex, table, f, "")
  {
    OffsetPagesFrom(regex, table, f, 0, 0);
    KeysetPagingIsComplete(regex, table, f);
  }
}
