/** Folding Azure Retail Prices rows into products (internal/scraper/azure.go). */
module AzurePrices {
  import opened Catalog
  import opened JoinedKeys

  // ---------------------------------------------------------------- keys

  function SlotFields(p: Price): seq<string> {
    [p.purchaseOption, p.unit, p.startUsageAmount, p.termLength]
  }

  function ExactFields(p: Price): seq<string> {
    [p.purchaseOption, p.unit, p.startUsageAmount, p.usd, p.termLength]
  }

  function TierFields(p: Price): seq<string> {
    [p.purchaseOption, p.startUsageAmount, p.termLength]
  }

  /** What one price row prices within a product. */
  function Slot(p: Price): string {
    Joined(SlotFields(p))
  }

  function ExactKey(p: Price): string {
    Joined(ExactFields(p))
  }

  function TierKey(p: Price): string {
    Joined(TierFields(p))
  }

  /** What the keys stand for, where no field contains the separator. */
  lemma KeysMean(p: Price, q: Price)
    requires '|' !in p.purchaseOption && '|' !in p.unit && '|' !in p.startUsageAmount && '|' !in p.usd
             && '|' !in p.termLength
    requires '|' !in q.purchaseOption && '|' !in q.unit && '|' !in q.startUsageAmount && '|' !in q.usd
             && '|' !in q.termLength
    ensures Slot(p) == Slot(q)
            <==> p.purchaseOption == q.purchaseOption && p.unit == q.unit && p.startUsageAmount == q.startUsageAmount
                 && p.termLength == q.termLength
    ensures ExactKey(p) == ExactKey(q)
            <==> p.purchaseOption == q.purchaseOption && p.unit == q.unit && p.startUsageAmount == q.startUsageAmount
                 && p.usd == q.usd && p.termLength == q.termLength
    ensures TierKey(p) == TierKey(q)
            <==> p.purchaseOption == q.purchaseOption && p.startUsageAmount == q.startUsageAmount
                 && p.termLength == q.termLength
  {
    if Slot(p) == Slot(q) {
      BarFreeReadsBack(SlotFields(p), SlotFields(q));
      SameFields(SlotFields(p), SlotFields(q));
    }
    if ExactKey(p) == ExactKey(q) {
      BarFreeReadsBack(ExactFields(p), ExactFields(q));
      SameFields(ExactFields(p), ExactFields(q));
    }
    if TierKey(p) == TierKey(q) {
      BarFreeReadsBack(TierFields(p), TierFields(q));
      SameFields(TierFields(p), TierFields(q));
    }
  }

  lemma SameFields(a: seq<string>, b: seq<string>)
    requires a == b
    ensures |a| == |b| && forall i :: 0 <= i < |a| ==> a[i] == b[i]
  {
  }

  /** A row is told apart from every row, with any texts in its fields, that differs
      in some key field exactly when none of its own five contains the separator. */
  lemma ExactKeyFixesFieldsIff(p: Price)
    ensures (forall q: Price :: ExactKey(q) == ExactKey(p) ==> ExactFields(q) == ExactFields(p))
            <==> BarFree(ExactFields(p))
  {
    JoinedIdentifiesIff(ExactFields(p));
    if !BarFree(ExactFields(p)) {
      var fs :| |fs| == 5 && Joined(fs) == ExactKey(p) && fs != ExactFields(p);
      var q := p.(purchaseOption := fs[0], unit := fs[1], startUsageAmount := fs[2], usd := fs[3], termLength := fs[4]);
      assert ExactFields(q) == fs;
    }
  }

  lemma TierKeyFixesTierIff(p: Price)
    ensures (forall q: Price :: TierKey(q) == TierKey(p) ==> TierFields(q) == TierFields(p))
            <==> BarFree(TierFields(p))
  {
    JoinedIdentifiesIff(TierFields(p));
    if !BarFree(TierFields(p)) {
      var fs :| |fs| == 3 && Joined(fs) == TierKey(p) && fs != TierFields(p);
      var q := p.(purchaseOption := fs[0], startUsageAmount := fs[1], termLength := fs[2]);
      assert TierFields(q) == fs;
    }
  }

  /** Two rows as the code formats them, start and price as numbers. */
  function LongTerm(p: Price): Price {
    p.(purchaseOption := "x", unit := "u", startUsageAmount := "0", usd := "1.0000000000",
       termLength := "7|2.0000000000|t")
  }

  function LongUnit(p: Price): Price {
    p.(purchaseOption := "x", unit := "u|0|1.0000000000", startUsageAmount := "7", usd := "2.0000000000",
       termLength := "t")
  }

  /** They differ in slot and price but share a key, and the pass drops the second. */
  lemma SeparatorInFieldConfusesSlots(p: Price)
    ensures ExactKey(LongTerm(p)) == ExactKey(LongUnit(p))
    ensures Slot(LongTerm(p)) != Slot(LongUnit(p)) && LongTerm(p).usd != LongUnit(p).usd
    ensures FirstPerKey(ExactKey, [LongTerm(p), LongUnit(p)]) == [LongTerm(p)]
  {
    LongRowsShareKey(p);
    LongRowsDiffer(p);
    OnlyFirst(LongTerm(p), LongUnit(p));
  }

  lemma LongRowsShareKey(p: Price)
    ensures ExactKey(LongTerm(p)) == ExactKey(LongUnit(p))
  {
    SevenTextsTwoWays("x", "u", "0", "1.0000000000", "7", "2.0000000000", "t");
    assert "7" + "|" + "2.0000000000" + "|" + "t" == "7|2.0000000000|t";
    assert "u" + "|" + "0" + "|" + "1.0000000000" == "u|0|1.0000000000";
  }

  lemma LongRowsDiffer(p: Price)
    ensures Slot(LongTerm(p)) != Slot(LongUnit(p))
    ensures LongTerm(p).usd != LongUnit(p).usd
  {
    var a, b := LongTerm(p), LongUnit(p);
    JoinedConcat(["x", "u", "0"], [a.termLength]);
    JoinedThree("x", "u", "0");
    assert ["x", "u", "0"] + [a.termLength] == SlotFields(a);
    JoinedConcat(["x"], [b.unit, "7", "t"]);
    JoinedThree(b.unit, "7", "t");
    assert ["x"] + [b.unit, "7", "t"] == SlotFields(b);
    assert Slot(a)[6] == '7' && Slot(b)[6] == '1';
    assert a.usd[0] == '1' && b.usd[0] == '2';
  }

  lemma OnlyFirst(a: Price, b: Price)
    requires ExactKey(a) == ExactKey(b)
    ensures FirstPerKey(ExactKey, [a, b]) == [a]
  {
    assert [a, b][..1] == [a] && [a][..0] == [];
    assert FirstPerKey(ExactKey, [a]) == [a];
    assert a in [a];
  }

  lemma SeparatorInFieldMergesTiers(p: Price)
    ensures var a := p.(purchaseOption := "x|5", startUsageAmount := "0", termLength := "t");
            var b := p.(purchaseOption := "x", startUsageAmount := "5", termLength := "0|t");
            TierKey(a) == TierKey(b) && TierFields(a) != TierFields(b)
  {
    var a := p.(purchaseOption := "x|5", startUsageAmount := "0", termLength := "t");
    var b := p.(purchaseOption := "x", startUsageAmount := "5", termLength := "0|t");
    JoinedThree("x|5", "0", "t");
    JoinedThree("x", "5", "0|t");
    assert TierKey(a) == "x|5|0|t" == TierKey(b);
  }

  /** No two rows of the list share a key and differ in its fields. */
  ghost predicate KeyIsFaithful<K, L>(key: Price -> K, fields: Price -> L, prices: seq<Price>) {
    forall p, q :: p in prices && q in prices && key(p) == key(q) ==> fields(p) == fields(q)
  }

  // ---------------------------------------------------------------- authoritative rows

  function Covered(prices: seq<Price>, flags: seq<bool>): set<string>
    requires |prices| == |flags|
  {
    set i | 0 <= i < |prices| && flags[i] :: Slot(prices[i])
  }

  /** The rows that stay, given the covered slots. */
  function Keep(prices: seq<Price>, flags: seq<bool>, covered: set<string>): (kept: seq<Price>)
    requires |prices| == |flags|
    ensures |kept| <= |prices|
  {
    var n := |prices| - 1;
    if n < 0 then []
    else
      Keep(prices[..n], flags[..n], covered) + if flags[n] || Slot(prices[n]) !in covered then [prices[n]] else []
  }

  function OfSlot(prices: seq<Price>, slot: string): seq<Price> {
    var n := |prices| - 1;
    if n < 0 then [] else OfSlot(prices[..n], slot) + if Slot(prices[n]) == slot then [prices[n]] else []
  }

  function AuthoritativeOfSlot(prices: seq<Price>, flags: seq<bool>, slot: string): seq<Price>
    requires |prices| == |flags|
  {
    var n := |prices| - 1;
    if n < 0 then []
    else
      AuthoritativeOfSlot(prices[..n], flags[..n], slot)
      + if flags[n] && Slot(prices[n]) == slot then [prices[n]] else []
  }

  lemma OfSlotConcat(a: seq<Price>, tail: seq<Price>, slot: string)
    requires |tail| <= 1
    ensures OfSlot(a + tail, slot) == OfSlot(a, slot) + OfSlot(tail, slot)
  {
    if tail == [] {
      assert a + tail == a;
    } else {
      assert (a + tail)[..|a|] == a;
      assert tail[..0] == [];
    }
  }

  lemma {:induction false} KeepBySlot(prices: seq<Price>, flags: seq<bool>, covered: set<string>, slot: string)
    requires |prices| == |flags|
    ensures OfSlot(Keep(prices, flags, covered), slot) ==
            if slot in covered then AuthoritativeOfSlot(prices, flags, slot) else OfSlot(prices, slot)
  {
    var n := |prices| - 1;
    if n >= 0 {
      KeepBySlot(prices[..n], flags[..n], covered, slot);
      var tail := if flags[n] || Slot(prices[n]) !in covered then [prices[n]] else [];
      OfSlotConcat(Keep(prices[..n], flags[..n], covered), tail, slot);
      assert tail != [] ==> tail[..0] == [];
    }
  }

  /** A slot that received an authoritative row keeps exactly those, in order; a
      slot that received none keeps every row it has. */
  lemma SlotKeepsItsBestRows(prices: seq<Price>, flags: seq<bool>, slot: string)
    requires |prices| == |flags|
    ensures OfSlot(Keep(prices, flags, Covered(prices, flags)), slot) ==
            if exists i :: 0 <= i < |prices| && flags[i] && Slot(prices[i]) == slot
            then AuthoritativeOfSlot(prices, flags, slot)
            else OfSlot(prices, slot)
  {
    KeepBySlot(prices, flags, Covered(prices, flags), slot);
  }

  lemma {:induction false} KeepMembers(prices: seq<Price>, flags: seq<bool>, covered: set<string>, i: nat)
    requires |prices| == |flags| && i < |prices|
    requires flags[i] || Slot(prices[i]) !in covered
    ensures prices[i] in Keep(prices, flags, covered)
  {
    var n := |prices| - 1;
    if i < n {
      KeepMembers(prices[..n], flags[..n], covered, i);
    }
  }

  /** No slot loses its last row. */
  lemma EverySlotSurvives(prices: seq<Price>, flags: seq<bool>, i: nat) returns (j: nat)
    requires |prices| == |flags| && i < |prices|
    ensures j < |prices| && Slot(prices[j]) == Slot(prices[i])
    ensures prices[j] in Keep(prices, flags, Covered(prices, flags))
  {
    var covered := Covered(prices, flags);
    if Slot(prices[i]) in covered {
      j :| 0 <= j < |prices| && flags[j] && Slot(prices[j]) == Slot(prices[i]);
    } else {
      j := i;
    }
    KeepMembers(prices, flags, covered, j);
  }

  lemma KeepNext(prices: seq<Price>, flags: seq<bool>, covered: set<string>, i: nat)
    requires |prices| == |flags| && i < |prices|
    ensures Keep(prices[..i + 1], flags[..i + 1], covered) ==
            Keep(prices[..i], flags[..i], covered) + if flags[i] || Slot(prices[i]) !in covered then [prices[i]] else []
  {
    assert prices[..i + 1][..i] == prices[..i] && flags[..i + 1][..i] == flags[..i];
  }

  method CoveredSlots(prices: array<Price>, flags: seq<bool>) returns (covered: set<string>)
    requires prices.Length == |flags|
    ensures covered == Covered(prices[..], flags)
  {
    covered := {};
    for i := 0 to prices.Length
      invariant covered == set j | 0 <= j < i && flags[j] :: Slot(prices[j])
    {
      if flags[i] {
        covered := covered + {Slot(prices[i])};
      }
    }
  }

  /** The compaction runs in place, writing behind its own reads. */
  method Compact(prices: array<Price>, flags: seq<bool>) returns (kept: nat)
    requires prices.Length == |flags|
    modifies prices
    ensures kept <= prices.Length
    ensures prices[..kept] == Keep(old(prices[..]), flags, Covered(old(prices[..]), flags))
  {
    ghost var was := prices[..];
    var covered := CoveredSlots(prices, flags);
    kept := 0;
    for i := 0 to prices.Length
      invariant kept <= i
      invariant forall j :: i <= j < prices.Length ==> prices[j] == was[j]
      invariant prices[..kept] == Keep(was[..i], flags[..i], covered)
    {
      var pr := prices[i];
      KeepNext(was, flags, covered, i);
      if flags[i] || Slot(pr) !in covered {
        prices[kept] := pr;
        kept := kept + 1;
      }
    }
    assert was[..|was|] == was && flags[..|flags|] == flags;
  }

  // ---------------------------------------------------------------- exact duplicates

  function Keys<K(==)>(key: Price -> K, prices: seq<Price>): set<K> {
    set p | p in prices :: key(p)
  }

  /** The first row of every key. */
  function FirstPerKey<K(==)>(key: Price -> K, prices: seq<Price>): seq<Price> {
    var n := |prices| - 1;
    if n < 0 then []
    else
      var before := FirstPerKey(key, prices[..n]);
      if key(prices[n]) in Keys(key, before) then before else before + [prices[n]]
  }

  ghost predicate DistinctKeys<K>(key: Price -> K, prices: seq<Price>) {
    forall i, j :: 0 <= i < j < |prices| ==> key(prices[i]) != key(prices[j])
  }

  lemma KeysAppend<K>(key: Price -> K, prices: seq<Price>, p: Price)
    ensures Keys(key, prices + [p]) == Keys(key, prices) + {key(p)}
  {
    assert forall q :: q in prices + [p] <==> q in prices || q == p;
  }

  lemma {:induction false} FirstPerKeyCovers<K>(key: Price -> K, prices: seq<Price>)
    ensures Keys(key, FirstPerKey(key, prices)) == Keys(key, prices)
    ensures forall p :: p in FirstPerKey(key, prices) ==> p in prices
  {
    var n := |prices| - 1;
    if n >= 0 {
      FirstPerKeyCovers(key, prices[..n]);
      var before := FirstPerKey(key, prices[..n]);
      KeysAppend(key, prices[..n], prices[n]);
      KeysAppend(key, before, prices[n]);
      assert prices == prices[..n] + [prices[n]];
    }
  }

  lemma {:induction false} FirstPerKeyDistinct<K>(key: Price -> K, prices: seq<Price>)
    ensures DistinctKeys(key, FirstPerKey(key, prices))
  {
    var n := |prices| - 1;
    if n >= 0 {
      FirstPerKeyDistinct(key, prices[..n]);
      var before := FirstPerKey(key, prices[..n]);
      assert forall i :: 0 <= i < |before| ==> key(before[i]) in Keys(key, before);
    }
  }

  /** The pass removes exact duplicates, and nothing but, exactly when no two rows
      that differ in a key field share a key. */
  lemma DeduplicationIsExactIff(prices: seq<Price>)
    ensures FirstPerKey(ExactKey, prices) == FirstPerKey(ExactFields, prices)
            <==> KeyIsFaithful(ExactKey, ExactFields, prices)
  {
    if KeyIsFaithful(ExactKey, ExactFields, prices) {
      FaithfulKeysAgree(ExactKey, ExactFields, prices);
    } else {
      var p, q :| p in prices && q in prices && ExactKey(p) == ExactKey(q) && ExactFields(p) != ExactFields(q);
      ClashKeepsBoth(prices, p, q);
      FirstPerKeyDistinct(ExactKey, prices);
    }
  }

  lemma ClashKeepsBoth(prices: seq<Price>, p: Price, q: Price)
    requires p in prices && q in prices && ExactKey(p) == ExactKey(q) && ExactFields(p) != ExactFields(q)
    ensures !DistinctKeys(ExactKey, FirstPerKey(ExactFields, prices))
  {
    FirstPerKeyCovers(ExactFields, prices);
    var kept := FirstPerKey(ExactFields, prices);
    assert ExactFields(p) in Keys(ExactFields, kept) && ExactFields(q) in Keys(ExactFields, kept);
    var i :| 0 <= i < |kept| && ExactFields(kept[i]) == ExactFields(p);
    var j :| 0 <= j < |kept| && ExactFields(kept[j]) == ExactFields(q);
    assert ExactKey(kept[i]) == ExactKey(kept[j]) && i != j;
  }

  lemma {:induction false} FaithfulKeysAgree<K, L>(key: Price -> K, fields: Price -> L, prices: seq<Price>)
    requires KeyIsFaithful(key, fields, prices)
    requires forall p, q :: fields(p) == fields(q) ==> key(p) == key(q)
    ensures FirstPerKey(key, prices) == FirstPerKey(fields, prices)
  {
    var n := |prices| - 1;
    if n >= 0 {
      assert forall p :: p in prices[..n] ==> p in prices;
      FaithfulKeysAgree(key, fields, prices[..n]);
      FirstPerKeyCovers(key, prices[..n]);
      var before := FirstPerKey(key, prices[..n]);
      assert prices[n] in prices;
      assert key(prices[n]) in Keys(key, before) <==> fields(prices[n]) in Keys(fields, before);
    }
  }

  /** In a real region the pass loses no priced slot and no price of a slot. */
  lemma DeduplicationKeepsSlots(prices: seq<Price>, p: Price)
    requires KeyIsFaithful(ExactKey, ExactFields, prices)
    requires p in prices
    ensures exists q :: q in FirstPerKey(ExactKey, prices) && Slot(q) == Slot(p) && q.usd == p.usd
  {
    FirstPerKeyCovers(ExactKey, prices);
    assert ExactKey(p) in Keys(ExactKey, FirstPerKey(ExactKey, prices));
    var q :| q in FirstPerKey(ExactKey, prices) && ExactKey(q) == ExactKey(p);
    assert ExactFields(p)[0] == ExactFields(q)[0] && ExactFields(p)[1] == ExactFields(q)[1]
           && ExactFields(p)[2] == ExactFields(q)[2]
        && ExactFields(p)[3] == ExactFields(q)[3] && ExactFields(p)[4] == ExactFields(q)[4];
  }

  method KeepFirst<K(==)>(key: Price -> K, prices: seq<Price>) returns (result: seq<Price>)
    ensures result == FirstPerKey(key, prices)
  {
    var seen: set<K> := {};
    result := [];
    for i := 0 to |prices|
      invariant result == FirstPerKey(key, prices[..i])
      invariant seen == Keys(key, result)
    {
      assert prices[..i + 1][..i] == prices[..i];
      var k := key(prices[i]);
      if k !in seen {
        seen := seen + {k};
        result := result + [prices[i]];
      }
    }
    assert prices[..|prices|] == prices;
  }

  method DeduplicatePrices(prices: seq<Price>) returns (result: seq<Price>)
    ensures result == FirstPerKey(ExactKey, prices)
    ensures result == FirstPerKey(ExactFields, prices) <==> KeyIsFaithful(ExactKey, ExactFields, prices)
  {
    result := KeepFirst(ExactKey, prices);
    DeduplicationIsExactIff(prices);
  }

  // ---------------------------------------------------------------- one price per tier

  /** Reads the price of a row; 0.0 when its text is not a number. */
  type Cost = Price -> real

  /** One row for every key of the input, and never a dearer one than another
      input row with that key. */
  ghost predicate CheapestPerKey<K>(key: Price -> K, cost: Cost, prices: seq<Price>, result: seq<Price>) {
    && DistinctKeys(key, result)
    && (forall i :: 0 <= i < |result| ==> result[i] in prices)
    && (forall p :: p in prices ==> Beaten(key, cost, p, result))
  }

  ghost predicate Beaten<K>(key: Price -> K, cost: Cost, p: Price, result: seq<Price>) {
    exists i :: 0 <= i < |result| && key(result[i]) == key(p) && cost(result[i]) <= cost(p)
  }

  ghost predicate Indexed<K>(key: Price -> K, seen: map<K, nat>, result: seq<Price>) {
    && (forall k :: k in seen ==> seen[k] < |result| && key(result[seen[k]]) == k)
    && (forall j :: 0 <= j < |result| ==> key(result[j]) in seen)
  }

  method KeepCheapest<K(==)>(key: Price -> K, cost: Cost, prices: seq<Price>) returns (result: seq<Price>)
    ensures CheapestPerKey(key, cost, prices, result)
  {
    var seen: map<K, nat> := map[];
    result := [];
    for i := 0 to |prices|
      invariant Indexed(key, seen, result)
      invariant CheapestPerKey(key, cost, prices[..i], result)
    {
      assert prices[..i + 1] == prices[..i] + [prices[i]];
      seen, result := Offer(key, cost, seen, result, prices[i], prices[..i]);
    }
    assert prices[..|prices|] == prices;
  }

  /** One turn of the loop. */
  method Offer<K(==)>(key: Price -> K, cost: Cost, seen: map<K, nat>, result: seq<Price>, p: Price,
                      ghost prices: seq<Price>)
      returns (seen': map<K, nat>, result': seq<Price>)
    requires Indexed(key, seen, result) && CheapestPerKey(key, cost, prices, result)
    ensures Indexed(key, seen', result') && CheapestPerKey(key, cost, prices + [p], result')
  {
    var k := key(p);
    if k in seen {
      seen' := seen;
      var idx := seen[k];
      if cost(p) < cost(result[idx]) {
        KeyReplaced(key, cost, prices, result, p, idx);
        IndexStands(key, seen, result, p, idx);
        result' := result[idx := p];
      } else {
        KeyStands(key, cost, prices, result, p, idx);
        result' := result;
      }
    } else {
      IndexGrows(key, seen, result, p);
      KeyAdded(key, cost, prices, result, p);
      seen' := seen[k := |result|];
      result' := result + [p];
    }
  }

  lemma IndexStands<K>(key: Price -> K, seen: map<K, nat>, result: seq<Price>, p: Price, idx: nat)
    requires Indexed(key, seen, result) && idx < |result| && key(result[idx]) == key(p)
    ensures Indexed(key, seen, result[idx := p])
  {
  }

  lemma IndexGrows<K>(key: Price -> K, seen: map<K, nat>, result: seq<Price>, p: Price)
    requires Indexed(key, seen, result)
    requires key(p) !in seen
    ensures Indexed(key, seen[key(p) := |result|], result + [p])
    ensures forall j :: 0 <= j < |result| ==> key(result[j]) != key(p)
  {
  }

  lemma KeyReplaced<K>(key: Price -> K, cost: Cost, prices: seq<Price>, was: seq<Price>, p: Price, idx: nat)
    requires CheapestPerKey(key, cost, prices, was) && idx < |was| && key(was[idx]) == key(p)
    requires cost(p) < cost(was[idx])
    ensures CheapestPerKey(key, cost, prices + [p], was[idx := p])
  {
    var result := was[idx := p];
    forall q | q in prices + [p] ensures Beaten(key, cost, q, result) {
      if q in prices {
        assert Beaten(key, cost, q, was);
        StillBeaten(key, cost, q, was, p, idx);
      } else {
        assert result[idx] == q;
      }
    }
    SameKeysStayDistinct(key, was, result);
    assert forall i :: 0 <= i < |result| ==> result[i] == p || result[i] == was[i];
  }

  lemma StillBeaten<K>(key: Price -> K, cost: Cost, q: Price, was: seq<Price>, p: Price, idx: nat)
    requires Beaten(key, cost, q, was) && idx < |was| && key(was[idx]) == key(p) && cost(p) < cost(was[idx])
    ensures Beaten(key, cost, q, was[idx := p])
  {
    var i :| 0 <= i < |was| && key(was[i]) == key(q) && cost(was[i]) <= cost(q);
    var r := was[idx := p][i];
    assert key(r) == key(q) && cost(r) <= cost(q);
  }

  lemma SameKeysStayDistinct<K>(key: Price -> K, was: seq<Price>, result: seq<Price>)
    requires DistinctKeys(key, was) && |result| == |was|
    requires forall i :: 0 <= i < |was| ==> key(result[i]) == key(was[i])
    ensures DistinctKeys(key, result)
  {
  }

  lemma KeyStands<K>(key: Price -> K, cost: Cost, prices: seq<Price>, was: seq<Price>, p: Price, idx: nat)
    requires CheapestPerKey(key, cost, prices, was) && idx < |was| && key(was[idx]) == key(p)
    requires cost(was[idx]) <= cost(p)
    ensures CheapestPerKey(key, cost, prices + [p], was)
  {
    assert Beaten(key, cost, p, was);
  }

  lemma KeyAdded<K>(key: Price -> K, cost: Cost, prices: seq<Price>, was: seq<Price>, p: Price)
    requires CheapestPerKey(key, cost, prices, was)
    requires forall j :: 0 <= j < |was| ==> key(was[j]) != key(p)
    ensures CheapestPerKey(key, cost, prices + [p], was + [p])
  {
    var result := was + [p];
    forall q | q in prices + [p] ensures Beaten(key, cost, q, result) {
      if q in prices {
        assert Beaten(key, cost, q, was);
        var i :| 0 <= i < |was| && key(was[i]) == key(q) && cost(was[i]) <= cost(q);
        assert result[i] == was[i];
      } else {
        assert result[|was|] == q;
      }
    }
  }

  method DeduplicatePricesByTier(cost: Cost, prices: seq<Price>) returns (result: seq<Price>)
    ensures CheapestPerKey(TierKey, cost, prices, result)
    ensures CheapestPerKey(TierFields, cost, prices, result) <==> KeyIsFaithful(TierKey, TierFields, prices)
  {
    result := KeepCheapest(TierKey, cost, prices);
    TierDeduplicationIff(cost, prices, result);
  }

  /** The result has exactly one row per tier, the cheapest of it, exactly when no
      two tiers of the input share a key. */
  lemma TierDeduplicationIff(cost: Cost, prices: seq<Price>, result: seq<Price>)
    requires CheapestPerKey(TierKey, cost, prices, result)
    ensures CheapestPerKey(TierFields, cost, prices, result) <==> KeyIsFaithful(TierKey, TierFields, prices)
  {
    if KeyIsFaithful(TierKey, TierFields, prices) {
      FaithfulTiers(cost, prices, result);
    }
    if CheapestPerKey(TierFields, cost, prices, result) {
      MergedTiers(cost, prices, result);
    }
  }

  lemma FaithfulTiers(cost: Cost, prices: seq<Price>, result: seq<Price>)
    requires CheapestPerKey(TierKey, cost, prices, result) && KeyIsFaithful(TierKey, TierFields, prices)
    ensures CheapestPerKey(TierFields, cost, prices, result)
  {
    forall p | p in prices ensures Beaten(TierFields, cost, p, result) {
      assert Beaten(TierKey, cost, p, result);
      var i :| 0 <= i < |result| && TierKey(result[i]) == TierKey(p) && cost(result[i]) <= cost(p);
      assert result[i] in prices;
    }
    forall i, j | 0 <= i < j < |result| ensures TierFields(result[i]) != TierFields(result[j]) {
      assert TierKey(result[i]) != TierKey(result[j]);
    }
  }

  lemma MergedTiers(cost: Cost, prices: seq<Price>, result: seq<Price>)
    requires DistinctKeys(TierKey, result) && CheapestPerKey(TierFields, cost, prices, result)
    ensures KeyIsFaithful(TierKey, TierFields, prices)
  {
    forall p, q | p in prices && q in prices && TierKey(p) == TierKey(q) ensures TierFields(p) == TierFields(q) {
      var i := RowOfTier(cost, prices, result, p);
      var j := RowOfTier(cost, prices, result, q);
      assert TierKey(result[i]) == TierKey(result[j]);
      assert i == j;
    }
  }

  lemma RowOfTier(cost: Cost, prices: seq<Price>, result: seq<Price>, p: Price) returns (i: nat)
    requires CheapestPerKey(TierFields, cost, prices, result) && p in prices
    ensures i < |result| && TierFields(result[i]) == TierFields(p)
  {
    assert Beaten(TierFields, cost, p, result);
    i :| 0 <= i < |result| && TierFields(result[i]) == TierFields(p) && cost(result[i]) <= cost(p);
  }

  lemma NoDearerRow<K>(key: Price -> K, cost: Cost, b: seq<Price>, rb: seq<Price>, p: Price) returns (j: nat)
    requires CheapestPerKey(key, cost, b, rb) && p in b
    ensures j < |rb| && key(rb[j]) == key(p) && cost(rb[j]) <= cost(p)
  {
    assert Beaten(key, cost, p, rb);
    j :| 0 <= j < |rb| && key(rb[j]) == key(p) && cost(rb[j]) <= cost(p);
  }

  /** The tiers and what each costs do not depend on the order of the rows. */
  lemma TierPricesAreOrderFree<K>(key: Price -> K, cost: Cost, a: seq<Price>, b: seq<Price>, ra: seq<Price>,
                                  rb: seq<Price>, i: nat)
    requires multiset(a) == multiset(b)
    requires CheapestPerKey(key, cost, a, ra) && CheapestPerKey(key, cost, b, rb) && i < |ra|
    ensures exists j :: 0 <= j < |rb| && key(rb[j]) == key(ra[i]) && cost(rb[j]) == cost(ra[i])
  {
    SameMembers(a, b);
    var j := NoDearerRow(key, cost, b, rb, ra[i]);
    var k := NoDearerRow(key, cost, a, ra, rb[j]);
    assert k == i;
  }

  lemma SameMembers(a: seq<Price>, b: seq<Price>)
    requires multiset(a) == multiset(b)
    ensures forall p :: p in a <==> p in b
  {
    forall p ensures p in a <==> p in b {
      assert p in a <==> p in multiset(a);
      assert p in b <==> p in multiset(b);
    }
  }

  // ---------------------------------------------------------------- the builder

  /** One Retail Prices row: the regions it is stored under, whether it is
      authoritative, and the price it contributes. */
  datatype Item = Item(
    productName: string,
    skuName: string,
    meterName: string,
    service: string,
    family: string,
    regions: seq<string>,
    authoritative: bool,
    price: Price)

  /** What the builder holds for one product: what its first row says of it, and
      the prices with their flags. */
  datatype Gathered = Gathered(kind: Kind, prices: seq<Price>, primary: seq<bool>)

  datatype Kind = Kind(
    productName: string,
    skuName: string,
    meterName: string,
    region: string,
    service: string,
    family: string)

  function KindOf(item: Item, region: string): Kind {
    Kind(item.productName, item.skuName, item.meterName, region, item.service, item.family)
  }

  /** The fields a product is keyed by, and its key. */
  function Names(kind: Kind): seq<string> {
    [kind.productName, kind.skuName, kind.meterName, kind.region]
  }

  function KeyOf(item: Item, region: string): string {
    Joined(Names(KindOf(item, region)))
  }

  /** Which rows: a condition on the four fields. */
  type Choice = seq<string> -> bool

  function HasKey(k: string): Choice {
    names => Joined(names) == k
  }

  function HasNames(wanted: seq<string>): Choice {
    names => names == wanted
  }

  /** The chosen rows in arrival order, with their flags. */
  function Rows(items: seq<Item>, choice: Choice): seq<(Price, bool)> {
    if items == [] then []
    else
      var item := items[|items| - 1];
      Rows(items[..|items| - 1], choice) + RowsIn(item, item.regions, choice)
  }

  function RowsIn(item: Item, regions: seq<string>, choice: Choice): seq<(Price, bool)> {
    if regions == [] then []
    else
      var n := |regions| - 1;
      RowsIn(item, regions[..n], choice)
      + if choice(Names(KindOf(item, regions[n]))) then [(item.price, item.authoritative)] else []
  }

  /** What the first chosen row says of its product. */
  function FirstKind(items: seq<Item>, choice: Choice): Option<Kind> {
    if items == [] then None
    else
      var item := items[|items| - 1];
      FirstOr(FirstKind(items[..|items| - 1], choice), FirstKindIn(item, item.regions, choice))
  }

  function FirstKindIn(item: Item, regions: seq<string>, choice: Choice): Option<Kind> {
    if regions == [] then None
    else
      var kind := KindOf(item, regions[|regions| - 1]);
      FirstOr(FirstKindIn(item, regions[..|regions| - 1], choice), if choice(Names(kind)) then Some(kind) else None)
  }

  function FirstOr(a: Option<Kind>, b: Option<Kind>): Option<Kind> {
    if a.Some? then a else b
  }

  function Zip(prices: seq<Price>, flags: seq<bool>): seq<(Price, bool)>
    requires |prices| == |flags|
  {
    seq(|prices|, i requires 0 <= i < |prices| => (prices[i], flags[i]))
  }

  class AzureProductBuilder {
    var byKey: map<string, Gathered>
    ghost var items: seq<Item>  // everything added so far

    /** Each key holds the rows that have it, and what the first of them says. */
    ghost predicate Valid()
      reads this
    {
      Tracks(byKey, items)
    }

    constructor ()
      ensures Valid() && items == [] && byKey == map[]
    {
      byKey, items := map[], [];
    }

    method Add(item: Item)
      requires Valid()
      modifies this
      ensures Valid() && items == old(items) + [item]
    {
      NothingStoredYet(byKey, items, item);
      for i := 0 to |item.regions|
        invariant items == old(items)
        invariant InProgress(byKey, items, item, item.regions[..i])
      {
        assert item.regions[..i + 1] == item.regions[..i] + [item.regions[i]];
        AddTo(item, item.regions[i], item.regions[..i]);
      }
      assert item.regions[..|item.regions|] == item.regions;
      AllStored(byKey, items, item);
      items := items + [item];
    }

    /** The row for one of its regions. */
    method AddTo(item: Item, region: string, ghost done: seq<string>)
      requires InProgress(byKey, items, item, done)
      modifies this`byKey
      ensures InProgress(byKey, items, item, done + [region])
    {
      var k := KeyOf(item, region);
      var g := if k in byKey then byKey[k] else Gathered(KindOf(item, region), [], []);
      OneMoreRegion(byKey, items, item, done, region, g);
      byKey := byKey[k := g.(prices := g.prices + [item.price], primary := g.primary + [item.authoritative])];
    }
  }

  ghost predicate Holds(g: Gathered, rows: seq<(Price, bool)>, first: Option<Kind>) {
    |g.prices| == |g.primary| && rows != [] && Zip(g.prices, g.primary) == rows && first == Some(g.kind)
  }

  /** A key without rows is absent; a key with rows holds them. */
  ghost predicate Stores(byKey: map<string, Gathered>, k: string, rows: seq<(Price, bool)>, first: Option<Kind>) {
    if k in byKey then Holds(byKey[k], rows, first) else rows == [] && first == None
  }

  ghost predicate Tracks(byKey: map<string, Gathered>, items: seq<Item>) {
    forall k :: Stores(byKey, k, Rows(items, HasKey(k)), FirstKind(items, HasKey(k)))
  }

  /** The products while `item` is being stored, `done` regions in. */
  ghost predicate InProgress(byKey: map<string, Gathered>, items: seq<Item>, item: Item, done: seq<string>) {
    forall k :: Stores(byKey, k, RowsSoFar(items, item, done, k), KindSoFar(items, item, done, k))
  }

  function RowsSoFar(items: seq<Item>, item: Item, done: seq<string>, k: string): seq<(Price, bool)> {
    Rows(items, HasKey(k)) + RowsIn(item, done, HasKey(k))
  }

  function KindSoFar(items: seq<Item>, item: Item, done: seq<string>, k: string): Option<Kind> {
    FirstOr(FirstKind(items, HasKey(k)), FirstKindIn(item, done, HasKey(k)))
  }

  lemma NothingStoredYet(byKey: map<string, Gathered>, items: seq<Item>, item: Item)
    requires Tracks(byKey, items)
    ensures InProgress(byKey, items, item, [])
  {
    forall k ensures Stores(byKey, k, RowsSoFar(items, item, [], k), KindSoFar(items, item, [], k)) {
      assert Stores(byKey, k, Rows(items, HasKey(k)), FirstKind(items, HasKey(k)));
      assert RowsSoFar(items, item, [], k) == Rows(items, HasKey(k));
    }
  }

  lemma AllStored(byKey: map<string, Gathered>, items: seq<Item>, item: Item)
    requires InProgress(byKey, items, item, item.regions)
    ensures Tracks(byKey, items + [item])
  {
    assert (items + [item])[..|items|] == items;
    forall k ensures Stores(byKey, k, Rows(items + [item], HasKey(k)), FirstKind(items + [item], HasKey(k))) {
      assert Stores(byKey, k, RowsSoFar(items, item, item.regions, k), KindSoFar(items, item, item.regions, k));
    }
  }

  lemma RegionReaches(items: seq<Item>, item: Item, done: seq<string>, region: string, k: string)
    ensures RowsSoFar(items, item, done + [region], k) ==
            RowsSoFar(items, item, done, k)
            + if KeyOf(item, region) == k then [(item.price, item.authoritative)] else []
    ensures KindSoFar(items, item, done + [region], k) ==
            FirstOr(KindSoFar(items, item, done, k),
                    if KeyOf(item, region) == k then Some(KindOf(item, region)) else None)
  {
    assert (done + [region])[..|done|] == done;
  }

  function Extended(g: Gathered, item: Item): Gathered {
    g.(prices := g.prices + [item.price], primary := g.primary + [item.authoritative])
  }

  lemma OneMoreRegion(byKey: map<string, Gathered>, items: seq<Item>, item: Item, done: seq<string>, region: string,
                      g: Gathered)
    requires InProgress(byKey, items, item, done)
    requires var k := KeyOf(item, region); g == if k in byKey then byKey[k] else Gathered(KindOf(item, region), [], [])
    ensures InProgress(byKey[KeyOf(item, region) := Extended(g, item)], items, item, done + [region])
  {
    var mine := KeyOf(item, region);
    forall k ensures Stores(byKey[mine := Extended(g, item)], k, RowsSoFar(items, item, done + [region], k),
                            KindSoFar(items, item, done + [region], k))
    {
      RegionReaches(items, item, done, region, k);
      assert Stores(byKey, k, RowsSoFar(items, item, done, k), KindSoFar(items, item, done, k));
      if k == mine {
        assert |g.prices| == |g.primary| && Zip(g.prices, g.primary) == RowsSoFar(items, item, done, k);
        RowAppended(g.prices, g.primary, item.price, item.authoritative);
      }
    }
  }

  lemma RowAppended(prices: seq<Price>, flags: seq<bool>, p: Price, f: bool)
    requires |prices| == |flags|
    ensures Zip(prices + [p], flags + [f]) == Zip(prices, flags) + [(p, f)]
  {
  }

  // ---------------------------------------------------------------- products and their names

  /** A row with these four fields has been added. */
  ghost predicate Arrived(items: seq<Item>, names: seq<string>) {
    exists i, r :: 0 <= i < |items| && 0 <= r < |items[i].regions|
                   && Names(KindOf(items[i], items[i].regions[r])) == names
  }

  /** No two rows that differ in a field share a key. */
  ghost predicate NamesAreFaithful(items: seq<Item>) {
    forall a, b :: Arrived(items, a) && Arrived(items, b) && Joined(a) == Joined(b) ==> a == b
  }

  predicate IsVirtualRegion(region: string) {
    "Zone" <= region || region == "Global" || "US Gov" <= region || "DE " <= region || Contains(region, "China")
  }

  lemma VirtualRegionIff(region: string)
    ensures IsVirtualRegion(region) <==>
              || (|region| >= 4 && region[..4] == "Zone") || region == "Global"
              || (|region| >= 6 && region[..6] == "US Gov") || (|region| >= 3 && region[..3] == "DE ")
              || Has(region, "China")
  {
    ContainsIff(region, "China");
    assert "Zone" <= region <==> |region| >= 4 && region[..4] == "Zone";
    assert "US Gov" <= region <==> |region| >= 6 && region[..6] == "US Gov";
    assert "DE " <= region <==> |region| >= 3 && region[..3] == "DE ";
  }

  /** The prices a finished product carries: what a primary row covers is gone,
      then the region's own duplicate pass has run. */
  ghost predicate FinishedPrices(g: Gathered, cost: Cost, prices: seq<Price>) {
    && |g.prices| == |g.primary|
    && var kept := Keep(g.prices, g.primary, Covered(g.prices, g.primary));
       if IsVirtualRegion(g.kind.region) then CheapestPerKey(TierKey, cost, kept, prices)
       else prices == FirstPerKey(ExactKey, kept)
  }

  method Finish(g: Gathered, cost: Cost) returns (result: seq<Price>)
    requires |g.prices| == |g.primary|
    ensures FinishedPrices(g, cost, result)
    ensures g.prices != [] ==> result != []
  {
    var prices := new Price[|g.prices|](i requires 0 <= i < |g.prices| => g.prices[i]);
    assert prices[..] == g.prices;
    var n := Compact(prices, g.primary);
    var kept := prices[..n];
    if g.prices != [] {
      var j := EverySlotSurvives(g.prices, g.primary, 0);
      assert g.prices[j] in kept;
    }
    if IsVirtualRegion(g.kind.region) {
      result := DeduplicatePricesByTier(cost, kept);
      assert kept != [] ==> Beaten(TierKey, cost, kept[0], result);
    } else {
      result := DeduplicatePrices(kept);
      FirstPerKeyCovers(ExactKey, kept);
      assert kept != [] ==> ExactKey(kept[0]) in Keys(ExactKey, result);
    }
  }

  datatype Output = Output(key: string, kind: Kind, prices: seq<Price>)

  ghost predicate Consistent(g: Gathered) {
    |g.prices| == |g.primary| && g.prices != []
  }

  /** One finished product for every gathered one, whatever order the map is
      walked in; none comes out without prices. */
  method Products(byKey: map<string, Gathered>, cost: Cost) returns (result: seq<Output>)
    requires forall k :: k in byKey ==> Consistent(byKey[k])
    ensures Listed(byKey.Keys, result) && AllFinished(byKey, cost, result)
  {
    result := [];
    var left := byKey.Keys;
    ghost var done: set<string> := {};
    while left != {}
      invariant forall k :: k in byKey <==> k in left || k in done
      invariant forall k :: k in left ==> k !in done
      invariant Listed(done, result) && AllFinished(byKey, cost, result)
      decreases left
    {
      var k :| k in left;
      result := Emit(byKey, cost, k, result, done);
      left := left - {k};
      done := done + {k};
    }
    assert done == byKey.Keys;
  }

  method Emit(byKey: map<string, Gathered>, cost: Cost, k: string, result: seq<Output>, ghost done: set<string>)
      returns (longer: seq<Output>)
    requires k in byKey && k !in done && Consistent(byKey[k])
    requires Listed(done, result) && AllFinished(byKey, cost, result)
    ensures Listed(done + {k}, longer) && AllFinished(byKey, cost, longer)
  {
    var prices := Finish(byKey[k], cost);
    var o := Output(k, byKey[k].kind, prices);
    OneMoreOutput(done, result, o);
    OneMoreFinished(byKey, cost, result, o);
    longer := result + [o];
  }

  /** What the builder hands over: every key some row has, with exactly the rows
      that have it, and what the first of them says. */
  lemma BuilderIsConsistent(builder: AzureProductBuilder, k: string)
    requires builder.Valid()
    ensures k in builder.byKey <==> Rows(builder.items, HasKey(k)) != []
    ensures k in builder.byKey ==>
              && Consistent(builder.byKey[k])
              && Zip(builder.byKey[k].prices, builder.byKey[k].primary) == Rows(builder.items, HasKey(k))
              && FirstKind(builder.items, HasKey(k)) == Some(builder.byKey[k].kind)
  {
    assert Stores(builder.byKey, k, Rows(builder.items, HasKey(k)), FirstKind(builder.items, HasKey(k)));
  }

  /** Every row of the item that `p` chooses is chosen by `q` too. */
  ghost predicate SameRegions(item: Item, regions: seq<string>, p: Choice, q: Choice) {
    forall r :: 0 <= r < |regions| ==>
      var names := Names(KindOf(item, regions[r]));
      p(names) ==> q(names)
  }

  lemma {:induction false} FewerRowsIn(item: Item, regions: seq<string>, p: Choice, q: Choice)
    requires forall names :: q(names) ==> p(names)
    ensures |RowsIn(item, regions, q)| <= |RowsIn(item, regions, p)|
    ensures |RowsIn(item, regions, q)| == |RowsIn(item, regions, p)| ==>
              RowsIn(item, regions, q) == RowsIn(item, regions, p)
              && SameRegions(item, regions, p, q)
    ensures SameRegions(item, regions, p, q) ==>
              |RowsIn(item, regions, q)| == |RowsIn(item, regions, p)|
  {
    if regions != [] {
      var n := |regions| - 1;
      FewerRowsIn(item, regions[..n], p, q);
      assert forall r :: 0 <= r < n ==> regions[..n][r] == regions[r];
    }
  }

  /** Every added row that `p` chooses is chosen by `q` too. */
  ghost predicate SameArrivals(items: seq<Item>, p: Choice, q: Choice) {
    forall i, r :: 0 <= i < |items| && 0 <= r < |items[i].regions| ==>
      var names := Names(KindOf(items[i], items[i].regions[r]));
      p(names) ==> q(names)
  }

  lemma {:induction false} FewerRows(items: seq<Item>, p: Choice, q: Choice)
    requires forall names :: q(names) ==> p(names)
    ensures |Rows(items, q)| <= |Rows(items, p)|
    ensures |Rows(items, q)| == |Rows(items, p)| ==> Rows(items, q) == Rows(items, p)
    ensures |Rows(items, q)| == |Rows(items, p)| <==> SameArrivals(items, p, q)
  {
    if items != [] {
      var n := |items| - 1;
      FewerRows(items[..n], p, q);
      FewerRowsIn(items[n], items[n].regions, p, q);
      assert forall i :: 0 <= i < n ==> items[..n][i] == items[i];
    }
  }

  lemma {:induction false} FirstKindIsChosen(items: seq<Item>, choice: Choice)
    ensures FirstKind(items, choice).Some? ==> choice(Names(FirstKind(items, choice).value))
  {
    if items != [] {
      FirstKindIsChosen(items[..|items| - 1], choice);
      var item := items[|items| - 1];
      FirstKindInIsChosen(item, item.regions, choice);
    }
  }

  lemma {:induction false} FirstKindInIsChosen(item: Item, regions: seq<string>, choice: Choice)
    ensures FirstKindIn(item, regions, choice).Some? ==> choice(Names(FirstKindIn(item, regions, choice).value))
  {
    if regions != [] {
      FirstKindInIsChosen(item, regions[..|regions| - 1], choice);
    }
  }

  /** Nothing but the rows of its own four fields. */
  ghost predicate OwnRows(g: Gathered, items: seq<Item>) {
    |g.prices| == |g.primary| && Zip(g.prices, g.primary) == Rows(items, HasNames(Names(g.kind)))
  }

  /** One key: the product holds just its own rows exactly when every row with the
      key has its fields. */
  lemma KeyHoldsOwnRowsIff(builder: AzureProductBuilder, k: string)
    requires builder.Valid() && k in builder.byKey
    ensures Joined(Names(builder.byKey[k].kind)) == k
    ensures OwnRows(builder.byKey[k], builder.items)
            <==> SameArrivals(builder.items, HasKey(k), HasNames(Names(builder.byKey[k].kind)))
  {
    BuilderIsConsistent(builder, k);
    FirstKindIsChosen(builder.items, HasKey(k));
    FewerRows(builder.items, HasKey(k), HasNames(Names(builder.byKey[k].kind)));
  }

  lemma ArrivedIsKept(builder: AzureProductBuilder, names: seq<string>)
    requires builder.Valid() && Arrived(builder.items, names)
    ensures Joined(names) in builder.byKey
  {
    var i, r :| 0 <= i < |builder.items| && 0 <= r < |builder.items[i].regions|
                && Names(KindOf(builder.items[i], builder.items[i].regions[r])) == names;
    var nothing: Choice := n => false;
    FewerRows(builder.items, HasKey(Joined(names)), nothing);
    BuilderIsConsistent(builder, Joined(names));
  }

  /** Every product holds exactly the rows of its own names and region if and only
      if no two rows that differ in one of these share a key. */
  lemma OwnRowsIff(builder: AzureProductBuilder)
    requires builder.Valid()
    ensures (forall k :: k in builder.byKey ==> OwnRows(builder.byKey[k], builder.items))
            <==> NamesAreFaithful(builder.items)
  {
    if NamesAreFaithful(builder.items) {
      forall k | k in builder.byKey ensures OwnRows(builder.byKey[k], builder.items) {
        FaithfulNamesOwnRows(builder, k);
      }
    }
    if forall k :: k in builder.byKey ==> OwnRows(builder.byKey[k], builder.items) {
      forall a, b | Arrived(builder.items, a) && Arrived(builder.items, b) && Joined(a) == Joined(b) ensures a == b {
        ArrivedIsKept(builder, a);
        assert OwnRows(builder.byKey[Joined(a)], builder.items);
        OwnNamesOnly(builder, a);
        OwnNamesOnly(builder, b);
      }
    }
  }

  /** And every added row finds a product of its own names and region under the very
      same condition. */
  lemma OwnProductIff(builder: AzureProductBuilder)
    requires builder.Valid()
    ensures (forall names :: Arrived(builder.items, names) ==>
               Joined(names) in builder.byKey && Names(builder.byKey[Joined(names)].kind) == names)
            <==> NamesAreFaithful(builder.items)
  {
    if NamesAreFaithful(builder.items) {
      forall names | Arrived(builder.items, names)
        ensures Joined(names) in builder.byKey && Names(builder.byKey[Joined(names)].kind) == names
      {
        ArrivedIsKept(builder, names);
        FaithfulNamesOwnRows(builder, Joined(names));
        OwnNamesOnly(builder, names);
      }
    }
  }

  lemma OwnNamesOnly(builder: AzureProductBuilder, names: seq<string>)
    requires builder.Valid() && Arrived(builder.items, names)
    requires Joined(names) in builder.byKey && OwnRows(builder.byKey[Joined(names)], builder.items)
    ensures names == Names(builder.byKey[Joined(names)].kind)
  {
    KeyHoldsOwnRowsIff(builder, Joined(names));
    var i, r :| 0 <= i < |builder.items| && 0 <= r < |builder.items[i].regions|
                && Names(KindOf(builder.items[i], builder.items[i].regions[r])) == names;
    assert HasKey(Joined(names))(Names(KindOf(builder.items[i], builder.items[i].regions[r])));
  }

  lemma {:induction false} FirstKindArrived(items: seq<Item>, choice: Choice)
    ensures FirstKind(items, choice).Some? ==> Arrived(items, Names(FirstKind(items, choice).value))
  {
    if items != [] {
      var n := |items| - 1;
      FirstKindArrived(items[..n], choice);
      FirstKindInArrived(items[n], items[n].regions, choice);
      if FirstKind(items[..n], choice).Some? {
        var names := Names(FirstKind(items[..n], choice).value);
        var i, r :| 0 <= i < n && 0 <= r < |items[..n][i].regions|
                    && Names(KindOf(items[..n][i], items[..n][i].regions[r])) == names;
        assert items[..n][i] == items[i];
      }
    }
  }

  lemma {:induction false} FirstKindInArrived(item: Item, regions: seq<string>, choice: Choice)
    ensures FirstKindIn(item, regions, choice).Some? ==>
              exists r :: 0 <= r < |regions| && KindOf(item, regions[r]) == FirstKindIn(item, regions, choice).value
  {
    if regions != [] {
      var n := |regions| - 1;
      FirstKindInArrived(item, regions[..n], choice);
      if FirstKindIn(item, regions[..n], choice).Some? {
        var r :| 0 <= r < n && KindOf(item, regions[..n][r]) == FirstKindIn(item, regions[..n], choice).value;
        assert regions[..n][r] == regions[r];
      } else if FirstKindIn(item, regions, choice).Some? {
        assert KindOf(item, regions[n]) == FirstKindIn(item, regions, choice).value;
      }
    }
  }

  lemma FaithfulNamesOwnRows(builder: AzureProductBuilder, k: string)
    requires builder.Valid() && k in builder.byKey && NamesAreFaithful(builder.items)
    ensures OwnRows(builder.byKey[k], builder.items)
  {
    var items, kind := builder.items, builder.byKey[k].kind;
    KeyHoldsOwnRowsIff(builder, k);
    BuilderIsConsistent(builder, k);
    FirstKindArrived(items, HasKey(k));
    forall i, r | 0 <= i < |items| && 0 <= r < |items[i].regions|
                  && HasKey(k)(Names(KindOf(items[i], items[i].regions[r])))
      ensures HasNames(Names(kind))(Names(KindOf(items[i], items[i].regions[r])))
    {
      assert Arrived(items, Names(KindOf(items[i], items[i].regions[r])));
    }
  }

  /** Products with different keys differ in a name or the region, so their hashes
      differ too. */
  lemma ProductsDiffer(builder: AzureProductBuilder, k: string, l: string)
    requires builder.Valid() && k in builder.byKey && l in builder.byKey && k != l
    ensures Names(builder.byKey[k].kind) != Names(builder.byKey[l].kind)
  {
    KeyHoldsOwnRowsIff(builder, k);
    KeyHoldsOwnRowsIff(builder, l);
  }

  /** Which rows are safe whatever else arrives: those without a bar in any of the
      four fields. */
  lemma ProductKeyFixesNamesIff(kind: Kind)
    ensures (forall other: Kind :: Joined(Names(other)) == Joined(Names(kind)) ==> Names(other) == Names(kind))
            <==> BarFree(Names(kind))
  {
    JoinedIdentifiesIff(Names(kind));
    if !BarFree(Names(kind)) {
      var fs :| |fs| == 4 && Joined(fs) == Joined(Names(kind)) && fs != Names(kind);
      var other := kind.(productName := fs[0], skuName := fs[1], meterName := fs[2], region := fs[3]);
      assert Names(other) == fs;
    }
  }

  /** What a product key stands for, where no field contains the separator. */
  lemma ProductKeyMeans(a: Item, r: string, b: Item, s: string)
    requires '|' !in a.productName && '|' !in a.skuName && '|' !in a.meterName && '|' !in r
    requires '|' !in b.productName && '|' !in b.skuName && '|' !in b.meterName && '|' !in s
    ensures KeyOf(a, r) == KeyOf(b, s)
            <==> a.productName == b.productName && a.skuName == b.skuName && a.meterName == b.meterName && r == s
  {
    if KeyOf(a, r) == KeyOf(b, s) {
      BarFreeReadsBack(Names(KindOf(a, r)), Names(KindOf(b, s)));
      SameFields(Names(KindOf(a, r)), Names(KindOf(b, s)));
    }
  }

  /** Two rows whose products differ and whose prices end up in one. */
  lemma SeparatorInNameMergesProducts(item: Item, region: string)
    ensures var a := item.(productName := "a|b", skuName := "c", regions := [region]);
            var b := item.(productName := "a", skuName := "b|c", regions := [region]);
            && KeyOf(a, region) == KeyOf(b, region) && Names(KindOf(a, region)) != Names(KindOf(b, region))
            && !NamesAreFaithful([a, b])
  {
    var a := item.(productName := "a|b", skuName := "c", regions := [region]);
    var b := item.(productName := "a", skuName := "b|c", regions := [region]);
    PairJoins("a", "b", "c");
    assert "a" + "|" + "b" == "a|b" && "b" + "|" + "c" == "b|c";
    SameBefore(["a|b", "c"], ["a", "b|c"], [item.meterName, region]);
    assert ["a|b", "c"] + [item.meterName, region] == Names(KindOf(a, region));
    assert ["a", "b|c"] + [item.meterName, region] == Names(KindOf(b, region));
    var items := [a, b];
    assert items[0] == a && items[1] == b && a.regions[0] == region && b.regions[0] == region;
    assert Names(KindOf(items[0], items[0].regions[0])) == Names(KindOf(a, region));
    assert Names(KindOf(items[1], items[1].regions[0])) == Names(KindOf(b, region));
    assert Arrived(items, Names(KindOf(a, region))) && Arrived(items, Names(KindOf(b, region)));
    assert Names(KindOf(a, region))[0] == "a|b" && Names(KindOf(b, region))[0] == "a";
  }

  ghost predicate WellFinished(all: map<string, Gathered>, cost: Cost, o: Output) {
    o.prices != [] && o.key in all && o.kind == all[o.key].kind && FinishedPrices(all[o.key], cost, o.prices)
  }

  ghost predicate AllFinished(all: map<string, Gathered>, cost: Cost, result: seq<Output>) {
    forall i :: 0 <= i < |result| ==> WellFinished(all, cost, result[i])
  }

  lemma OneMoreFinished(all: map<string, Gathered>, cost: Cost, result: seq<Output>, o: Output)
    requires AllFinished(all, cost, result) && WellFinished(all, cost, o)
    ensures AllFinished(all, cost, result + [o])
  {
  }

  /** Each key once. */
  ghost predicate Listed(keys: set<string>, result: seq<Output>) {
    && (forall i, j :: 0 <= i < j < |result| ==> result[i].key != result[j].key)
    && (forall i :: 0 <= i < |result| ==> result[i].key in keys)
    && (forall k :: k in keys ==> exists i :: 0 <= i < |result| && result[i].key == k)
  }

  lemma OneMoreOutput(done: set<string>, result: seq<Output>, o: Output)
    requires Listed(done, result) && o.key !in done
    ensures Listed(done + {o.key}, result + [o])
  {
    var longer := result + [o];
    forall k | k in done + {o.key} ensures exists i :: 0 <= i < |longer| && longer[i].key == k {
      if k in done {
        var i :| 0 <= i < |result| && result[i].key == k;
        assert longer[i].key == k;
      } else {
        assert longer[|result|].key == k;
      }
    }
  }
}
