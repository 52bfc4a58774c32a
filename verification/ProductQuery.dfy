/** From a product filter to numbered SQL clauses (internal/db/queries.go). */
module ProductQuery {
  import opened Catalog

  const MAX_REGEX_LENGTH := 200

  datatype AttributeFilter = AttributeFilter(key: string, value: Option<string>, valueRegex: Option<string>)

  datatype Filter = Filter(
    vendor: Option<string>,
    service: Option<string>,
    family: Option<string>,
    region: Option<string>,
    sku: Option<string>,
    attributes: seq<AttributeFilter>,
    limit: int,
    offset: int,
    afterHash: string)

  // ---------------------------------------------------------------- the SQL fragment the builder emits

  datatype Arg = Text(text: string) | Object(key: string, value: string) | Number(n: int)

  datatype Column = VendorName | Service | ProductFamily | Region | Sku

  /** The naturals are placeholder numbers: 1 stands for $1. */
  datatype Clause =
    | ColumnIs(column: Column, a: nat)
    | NotGlobal
    | Contains(a: nat)
    | Matches(a: nat, insensitive: bool, b: nat)
    | HashAfter(a: nat)

  datatype Tail = LimitOnly(a: nat) | LimitOffset(a: nat, b: nat)

  datatype Query = Query(clauses: seq<Clause>, tail: Tail, args: seq<Arg>)

  datatype Built = Ok(query: Query) | PatternTooLong(length: nat)

  /** The database's regular expressions: case-insensitive?, pattern, value. */
  type Regex = (bool, string, string) -> bool

  // ---------------------------------------------------------------- order of hashes

  predicate Less(a: string, b: string) {
    b != [] && (a == [] || a[0] < b[0] || (a[0] == b[0] && Less(a[1..], b[1..])))
  }

  /** The order is by the first character that differs; a proper prefix comes first. */
  lemma {:induction false} LessIff(a: string, b: string)
    ensures Less(a, b) <==>
              exists k :: 0 <= k <= |a| && k < |b| && a[..k] == b[..k] && (k == |a| || a[k] < b[k])
  {
    if b != [] {
      if a == [] || a[0] < b[0] {
        assert a[..0] == b[..0];
      } else {
        LessIff(a[1..], b[1..]);
        if k :| 0 <= k <= |a[1..]| && k < |b[1..]| && a[1..][..k] == b[1..][..k]
                && (k == |a[1..]| || a[1..][k] < b[1..][k]) {
          if a[0] == b[0] {
            assert a[..k + 1] == [a[0]] + a[1..][..k] && b[..k + 1] == [b[0]] + b[1..][..k];
          }
        }
        if k :| 0 <= k <= |a| && k < |b| && a[..k] == b[..k] && (k == |a| || a[k] < b[k]) {
          if k > 0 {
            assert a[0] == a[..k][0] && b[0] == b[..k][0];
            assert a[1..][..k - 1] == a[..k][1..] && b[1..][..k - 1] == b[..k][1..];
          }
        }
      }
    }
  }

  lemma {:induction false} LessIrreflexive(a: string)
    ensures !Less(a, a)
  {
    if a != [] {
      LessIrreflexive(a[1..]);
    }
  }

  lemma {:induction false} LessTransitive(a: string, b: string, c: string)
    requires Less(a, b) && Less(b, c)
    ensures Less(a, c)
  {
    if a != [] && a[0] == b[0] && b[0] == c[0] {
      LessTransitive(a[1..], b[1..], c[1..]);
    }
  }

  lemma {:induction false} LessTotal(a: string, b: string)
    ensures a == b || Less(a, b) || Less(b, a)
  {
    if a != [] && b != [] && a[0] == b[0] {
      LessTotal(a[1..], b[1..]);
      assert a[1..] == b[1..] ==> a == [a[0]] + a[1..] == [b[0]] + b[1..] == b;
    }
  }

  // ---------------------------------------------------------------- patterns

  /** strings.LastIndex of a slash. */
  function LastSlash(s: string): (i: int)
    ensures -1 <= i < |s|
    ensures i >= 0 ==> s[i] == '/'
    ensures forall j :: i < j < |s| ==> s[j] != '/'
  {
    if s == [] then -1
    else if s[|s| - 1] == '/' then |s| - 1
    else LastSlash(s[..|s| - 1])
  }

  function ParseRegex(pattern: string): (string, bool) {
    if pattern == [] || pattern[0] != '/' then (pattern, false)
    else
      var last := LastSlash(pattern[1..]);
      if last == -1 then ("", false)
      else (pattern[1..last + 1], 'i' in pattern[last + 2..])
  }

  /** The three shapes of a pattern: without a leading slash it stands for itself;
      from the first slash to the last it is the body, and an i after it asks for
      either case; a leading slash alone leaves nothing. */
  lemma ParseMeans(pattern: string)
    ensures pattern == "" || pattern[0] != '/' ==> ParseRegex(pattern) == (pattern, false)
    ensures forall i :: 1 <= i < |pattern| && pattern[0] == '/' && pattern[i] == '/' && '/' !in pattern[i + 1..] ==>
              ParseRegex(pattern) == (pattern[1..i], 'i' in pattern[i + 1..])
    ensures pattern != "" && pattern[0] == '/' && '/' !in pattern[1..] ==> ParseRegex(pattern) == ("", false)
  {
    forall i | 1 <= i < |pattern| && pattern[0] == '/' && pattern[i] == '/' && '/' !in pattern[i + 1..]
      ensures ParseRegex(pattern) == (pattern[1..i], 'i' in pattern[i + 1..])
    {
      var inner := pattern[1..];
      assert inner[i - 1] == '/';
      assert forall j :: i <= j < |inner| ==> inner[j] == pattern[i + 1..][j - i];
      assert LastSlash(inner) == i - 1;
    }
  }

  function NormalizePrefix(pattern: string): string {
    if |pattern| >= 2 && pattern[0] == '\\' && pattern[1] == '-' then "(^|-)" + pattern[2..] else pattern
  }

  /** /body/flags reads back as the body and its case flag, slashes in the body
      included. */
  lemma ParseReadsBack(body: string, flags: string)
    requires '/' !in flags
    ensures ParseRegex("/" + body + "/" + flags) == (body, 'i' in flags)
  {
    var pattern := "/" + body + "/" + flags;
    var inner := pattern[1..];
    assert inner == body + "/" + flags;
    assert inner[|body|] == '/';
    assert forall j :: |body| < j < |inner| ==> inner[j] in flags;
    assert LastSlash(inner) == |body|;
    assert pattern[1..|body| + 1] == body;
    assert pattern[|body| + 2..] == flags;
  }

  /** Which patterns come out empty and add no clause: the empty one, and those that
      open with a slash and have no other slash but perhaps the one right after. */
  lemma PatternIsDroppedIff(pattern: string)
    ensures ParseRegex(pattern).0 == "" <==>
            pattern == "" || (pattern[0] == '/' && forall j :: 2 <= j < |pattern| ==> pattern[j] != '/')
  {
    if pattern != "" && pattern[0] == '/' {
      var inner := pattern[1..];
      assert forall j :: 0 <= j < |inner| ==> inner[j] == pattern[j + 1];
      assert forall j :: 1 <= j < |pattern| ==> pattern[j] == inner[j - 1];
    }
  }

  // ---------------------------------------------------------------- the filter read directly

  function ColumnOf(p: Product, c: Column): string {
    match c
    case VendorName => p.vendor
    case Service => p.service
    case ProductFamily => p.family
    case Region => p.region
    case Sku => p.sku
  }

  predicate IsGlobal(p: Product) {
    "usagetype" in p.attributes && "Global" <= p.attributes["usagetype"]
  }

  predicate Wants(wanted: Option<string>, actual: string) {
    wanted.Some? ==> actual == wanted.value
  }

  /** A value beats a pattern; a pattern that parses to nothing asks nothing. */
  predicate AttributeSelects(regex: Regex, f: AttributeFilter, p: Product) {
    if f.value.Some? then
      f.key in p.attributes && p.attributes[f.key] == f.value.value
    else if f.valueRegex.Some? then
      var (pattern, insensitive) := ParseRegex(f.valueRegex.value);
      pattern != "" ==> f.key in p.attributes && regex(insensitive, NormalizePrefix(pattern), p.attributes[f.key])
    else true
  }

  predicate Selects(regex: Regex, f: Filter, p: Product) {
    && Wants(f.vendor, p.vendor) && Wants(f.service, p.service) && Wants(f.family, p.family)
    && Wants(f.region, p.region) && (f.region.Some? ==> !IsGlobal(p))
    && Wants(f.sku, p.sku)
    && (forall i :: 0 <= i < |f.attributes| ==> AttributeSelects(regex, f.attributes[i], p))
    && (f.afterHash != "" ==> Less(f.afterHash, p.hash))
  }

  /** What a filter selects, spelled out. */
  lemma SelectsIff(regex: Regex, f: Filter, p: Product)
    ensures Selects(regex, f, p) <==>
              && (f.vendor.Some? ==> p.vendor == f.vendor.value)
              && (f.service.Some? ==> p.service == f.service.value)
              && (f.family.Some? ==> p.family == f.family.value)
              && (f.region.Some? ==> p.region == f.region.value)
              && (f.region.Some? && "usagetype" in p.attributes ==> !("Global" <= p.attributes["usagetype"]))
              && (f.sku.Some? ==> p.sku == f.sku.value)
              && (forall i :: 0 <= i < |f.attributes| ==> AttributeFits(regex, f.attributes[i], p.attributes))
              && (f.afterHash != "" ==> Less(f.afterHash, p.hash))
  {
    forall i | 0 <= i < |f.attributes|
      ensures AttributeSelects(regex, f.attributes[i], p) <==> AttributeFits(regex, f.attributes[i], p.attributes)
    {
    }
  }

  ghost predicate AttributeFits(regex: Regex, a: AttributeFilter, attributes: map<string, string>) {
    && (a.value.Some? ==> a.key in attributes && attributes[a.key] == a.value.value)
    && (a.value.None? && a.valueRegex.Some? && ParseRegex(a.valueRegex.value).0 != "" ==>
          var (body, anyCase) := ParseRegex(a.valueRegex.value);
          a.key in attributes
          && regex(anyCase, if "\\-" <= body then "(^|-)" + body[2..] else body, attributes[a.key]))
  }

  /** Two values on one key never match. */
  lemma TwoValuesMatchNothing(regex: Regex, f: Filter, p: Product, i: nat, j: nat)
    requires i < |f.attributes| && j < |f.attributes|
    requires f.attributes[i].key == f.attributes[j].key
    requires f.attributes[i].value.Some? && f.attributes[j].value.Some?
    requires f.attributes[i].value != f.attributes[j].value
    ensures !Selects(regex, f, p)
  {
    assert AttributeSelects(regex, f.attributes[i], p) && AttributeSelects(regex, f.attributes[j], p) ==> false;
  }

  // ---------------------------------------------------------------- the SQL read by the database

  function TextArg(args: seq<Arg>, a: nat): Option<string> {
    if 1 <= a <= |args| && args[a - 1].Text? then Some(args[a - 1].text) else None
  }

  function NumberArg(args: seq<Arg>, a: nat): Option<int> {
    if 1 <= a <= |args| && args[a - 1].Number? then Some(args[a - 1].n) else None
  }

  /** A missing attribute makes `->>` NULL, and NULL selects nothing. */
  predicate Holds(regex: Regex, args: seq<Arg>, c: Clause, p: Product) {
    match c
    case ColumnIs(column, a) => TextArg(args, a) == Some(ColumnOf(p, column))
    case NotGlobal => !IsGlobal(p)
    case Contains(a) =>
      1 <= a <= |args| && args[a - 1].Object? &&
      args[a - 1].key in p.attributes && p.attributes[args[a - 1].key] == args[a - 1].value
    case Matches(a, insensitive, b) =>
      var key, pattern := TextArg(args, a), TextArg(args, b);
      key.Some? && pattern.Some? && key.value in p.attributes &&
      regex(insensitive, pattern.value, p.attributes[key.value])
    case HashAfter(a) =>
      var cursor := TextArg(args, a);
      cursor.Some? && Less(cursor.value, p.hash)
  }

  predicate AllHold(regex: Regex, args: seq<Arg>, clauses: seq<Clause>, p: Product) {
    forall i :: 0 <= i < |clauses| ==> Holds(regex, args, clauses[i], p)
  }

  // ---------------------------------------------------------------- placeholders

  function ClausePlaceholders(c: Clause): seq<nat> {
    match c
    case ColumnIs(_, a) => [a]
    case NotGlobal => []
    case Contains(a) => [a]
    case Matches(a, _, b) => [a, b]
    case HashAfter(a) => [a]
  }

  function Placeholders(clauses: seq<Clause>): seq<nat> {
    if clauses == [] then [] else Placeholders(clauses[..|clauses| - 1]) + ClausePlaceholders(clauses[|clauses| - 1])
  }

  function TailPlaceholders(t: Tail): seq<nat> {
    match t
    case LimitOnly(a) => [a]
    case LimitOffset(a, b) => [a, b]
  }

  function UpTo(n: nat): seq<nat> {
    seq(n, i => i + 1)
  }

  // ---------------------------------------------------------------- the builder's meaning

  /** A partial query that numbers its placeholders $1..$n in order and selects
      what the partial filter `part` selects. */
  ghost predicate Means(regex: Regex, clauses: seq<Clause>, args: seq<Arg>, part: Filter) {
    && Placeholders(clauses) == UpTo(|args|)
    && (forall i :: 0 <= i < |clauses| ==> InRange(clauses[i], |args|))
    && forall p :: AllHold(regex, args, clauses, p) <==> Selects(regex, part, p)
  }

  ghost predicate InRange(c: Clause, n: nat) {
    forall a :: a in ClausePlaceholders(c) ==> 1 <= a <= n
  }

  /** Appending a clause that binds exactly the appended arguments. */
  lemma Extend(regex: Regex, clauses: seq<Clause>, args: seq<Arg>, part: Filter, c: Clause, more: seq<Arg>,
               part': Filter)
    requires Means(regex, clauses, args, part)
    requires UpTo(|args|) + ClausePlaceholders(c) == UpTo(|args| + |more|)
    requires forall p :: Selects(regex, part', p) <==> Selects(regex, part, p) && Holds(regex, args + more, c, p)
    ensures Means(regex, clauses + [c], args + more, part')
  {
    var clauses', args' := clauses + [c], args + more;
    assert clauses'[..|clauses|] == clauses;
    assert InRange(c, |args'|) by {
      forall a | a in ClausePlaceholders(c) ensures 1 <= a <= |args'| {
        assert a in UpTo(|args|) + ClausePlaceholders(c);
      }
    }
    forall p ensures AllHold(regex, args', clauses', p) <==> Selects(regex, part', p) {
      forall i | 0 <= i < |clauses| ensures Holds(regex, args', clauses'[i], p) <==> Holds(regex, args, clauses[i], p) {
        assert InRange(clauses[i], |args|);
        HoldsStable(regex, args, args', clauses[i], p);
      }
      if AllHold(regex, args', clauses', p) {
        assert Holds(regex, args', clauses'[|clauses|], p);
      }
    }
  }

  lemma HoldsStable(regex: Regex, args: seq<Arg>, args': seq<Arg>, c: Clause, p: Product)
    requires forall a :: a in ClausePlaceholders(c) ==> 1 <= a <= |args| <= |args'| && args'[a - 1] == args[a - 1]
    ensures Holds(regex, args', c, p) <==> Holds(regex, args, c, p)
  {
    match c
    case ColumnIs(_, a) => assert a in ClausePlaceholders(c);
    case NotGlobal =>
    case Contains(a) => assert a in ClausePlaceholders(c);
    case Matches(a, _, b) => assert a in ClausePlaceholders(c) && b in ClausePlaceholders(c);
    case HashAfter(a) => assert a in ClausePlaceholders(c);
  }

  const EVERYTHING := Filter(None, None, None, None, None, [], 0, 0, "")

  // ---------------------------------------------------------------- the code

  /** One `AND column = $n`, when the filter names the column. */
  method AddColumn(clauses: seq<Clause>, args: seq<Arg>, argIdx: nat, column: Column, wanted: Option<string>,
                   ghost regex: Regex, ghost part: Filter, ghost part': Filter)
      returns (clauses': seq<Clause>, args': seq<Arg>, argIdx': nat)
    requires Means(regex, clauses, args, part) && argIdx == |args| + 1
    requires forall p :: Selects(regex, part', p) <==> Selects(regex, part, p) && Wants(wanted, ColumnOf(p, column))
    ensures Means(regex, clauses', args', part') && argIdx' == |args'| + 1
  {
    clauses', args', argIdx' := clauses, args, argIdx;
    if wanted.Some? {
      clauses' := clauses' + [ColumnIs(column, argIdx')];
      args' := args' + [Text(wanted.value)];
      argIdx' := argIdx' + 1;
      Extend(regex, clauses, args, part, ColumnIs(column, argIdx), [Text(wanted.value)], part');
    }
  }

  method AddAttribute(clauses: seq<Clause>, args: seq<Arg>, argIdx: nat, af: AttributeFilter,
                      ghost regex: Regex, ghost part: Filter, ghost part': Filter)
      returns (clauses': seq<Clause>, args': seq<Arg>, argIdx': nat)
    requires Means(regex, clauses, args, part) && argIdx == |args| + 1
    requires forall p :: Selects(regex, part', p) <==> Selects(regex, part, p) && AttributeSelects(regex, af, p)
    ensures Means(regex, clauses', args', part') && argIdx' == |args'| + 1
  {
    clauses', args', argIdx' := clauses, args, argIdx;
    if af.value.Some? {
      clauses' := clauses' + [Contains(argIdx')];
      args' := args' + [Object(af.key, af.value.value)];
      argIdx' := argIdx' + 1;
      Extend(regex, clauses, args, part, Contains(argIdx), [Object(af.key, af.value.value)], part');
    } else if af.valueRegex.Some? {
      var (pgRegex, insensitive) := ParseRegex(af.valueRegex.value);
      if pgRegex != "" {
        pgRegex := NormalizePrefix(pgRegex);
        clauses' := clauses' + [Matches(argIdx', insensitive, argIdx' + 1)];
        args' := args' + [Text(af.key), Text(pgRegex)];
        argIdx' := argIdx' + 2;
        Extend(regex, clauses, args, part, Matches(argIdx, insensitive, argIdx + 1), [Text(af.key), Text(pgRegex)],
               part');
      }
    }
  }

  /** Where-clauses agree with the filter on every product, the placeholders are
      $1..$n once each in order, and the tail carries limit and offset. A cursor
      wins over an offset. */
  ghost predicate Compiled(regex: Regex, f: Filter, q: Query) {
    && (forall p :: AllHold(regex, q.args, q.clauses, p) <==> Selects(regex, f, p))
    && Placeholders(q.clauses) + TailPlaceholders(q.tail) == UpTo(|q.args|)
    && (if f.afterHash == "" && f.offset > 0 then
          q.tail.LimitOffset? && NumberArg(q.args, q.tail.a) == Some(EffectiveLimit(f.limit))
          && NumberArg(q.args, q.tail.b) == Some(f.offset)
        else
          q.tail.LimitOnly? && NumberArg(q.args, q.tail.a) == Some(EffectiveLimit(f.limit)))
  }

  /** len() counts the bytes of a string. */
  function Utf8Length(s: string): nat {
    if s == "" then 0
    else
      var c := s[0] as int;
      (if c < 0x80 then 1 else if c < 0x800 then 2 else if c < 0x1_0000 then 3 else 4) + Utf8Length(s[1..])
  }

  lemma {:induction false} Utf8LengthIs(s: string)
    ensures |s| <= Utf8Length(s) <= 4 * |s|
    ensures (forall i :: 0 <= i < |s| ==> s[i] as int < 0x80) <==> Utf8Length(s) == |s|
  {
    if s != "" {
      Utf8LengthIs(s[1..]);
      assert forall i :: 0 < i < |s| ==> s[i] == s[1..][i - 1];
      assert forall i :: 0 <= i < |s[1..]| ==> s[1..][i] == s[i + 1];
    }
  }

  method BuildProductQuery(f: Filter, ghost regex: Regex) returns (built: Built)
    ensures built.PatternTooLong?
            <==> exists i :: 0 <= i < |f.attributes| && f.attributes[i].valueRegex.Some?
                             && Utf8Length(f.attributes[i].valueRegex.value) > 200
    ensures built.Ok? ==> Compiled(regex, f, built.query)
  {
    for i := 0 to |f.attributes|
      invariant forall j :: 0 <= j < i && f.attributes[j].valueRegex.Some? ==>
                  Utf8Length(f.attributes[j].valueRegex.value) <= MAX_REGEX_LENGTH
    {
      var pattern := f.attributes[i].valueRegex;
      if pattern.Some? && Utf8Length(pattern.value) > MAX_REGEX_LENGTH {
        return PatternTooLong(Utf8Length(pattern.value));
      }
    }
    var clauses, args, argIdx := AddColumns(f, regex);
    clauses, args, argIdx := AddAttributes(f, clauses, args, argIdx, regex);
    var query := AddPage(f, clauses, args, argIdx, regex);
    built := Ok(query);
  }

  /** The filter without its attributes and its page. */
  function ColumnsOf(f: Filter): Filter {
    EVERYTHING.(vendor := f.vendor, service := f.service, family := f.family, region := f.region, sku := f.sku)
  }

  method AddAttributes(f: Filter, clauses: seq<Clause>, args: seq<Arg>, argIdx: nat, ghost regex: Regex)
      returns (clauses': seq<Clause>, args': seq<Arg>, argIdx': nat)
    requires Means(regex, clauses, args, ColumnsOf(f)) && argIdx == |args| + 1
    ensures Means(regex, clauses', args', ColumnsOf(f).(attributes := f.attributes)) && argIdx' == |args'| + 1
  {
    clauses', args', argIdx' := clauses, args, argIdx;
    for i := 0 to |f.attributes|
      invariant argIdx' == |args'| + 1
      invariant Means(regex, clauses', args', ColumnsOf(f).(attributes := f.attributes[..i]))
    {
      OneMoreAttribute(regex, ColumnsOf(f), f.attributes, i);
      clauses', args', argIdx' := AddAttribute(clauses', args', argIdx', f.attributes[i], regex,
        ColumnsOf(f).(attributes := f.attributes[..i]), ColumnsOf(f).(attributes := f.attributes[..i + 1]));
    }
    assert f.attributes[..|f.attributes|] == f.attributes;
  }

  method AddPage(f: Filter, clauses: seq<Clause>, args: seq<Arg>, argIdx: nat, ghost regex: Regex)
      returns (query: Query)
    requires Means(regex, clauses, args, ColumnsOf(f).(attributes := f.attributes)) && argIdx == |args| + 1
    ensures Compiled(regex, f, query)
  {
    ghost var part := ColumnsOf(f).(attributes := f.attributes);
    if f.afterHash != "" {
      Extend(regex, clauses, args, part, HashAfter(argIdx), [Text(f.afterHash)], part.(afterHash := f.afterHash));
      query := AddLimit(f, clauses + [HashAfter(argIdx)], args + [Text(f.afterHash)], argIdx + 1, regex);
    } else if f.offset > 0 {
      var limit := EffectiveLimit(f.limit);
      TailKeepsMeaning(regex, clauses, args, part, [Number(limit), Number(f.offset)]);
      query := Query(clauses, LimitOffset(argIdx, argIdx + 1), args + [Number(limit), Number(f.offset)]);
    } else {
      query := AddLimit(f, clauses, args, argIdx, regex);
    }
  }

  method AddLimit(f: Filter, clauses: seq<Clause>, args: seq<Arg>, argIdx: nat, ghost regex: Regex)
      returns (query: Query)
    requires Means(regex, clauses, args, ColumnsOf(f).(attributes := f.attributes, afterHash := f.afterHash))
    requires argIdx == |args| + 1 && (f.afterHash != "" || f.offset <= 0)
    ensures Compiled(regex, f, query)
  {
    var limit := EffectiveLimit(f.limit);
    TailKeepsMeaning(regex, clauses, args, ColumnsOf(f).(attributes := f.attributes, afterHash := f.afterHash),
                     [Number(limit)]);
    query := Query(clauses, LimitOnly(argIdx), args + [Number(limit)]);
  }

  method AddColumns(f: Filter, ghost regex: Regex) returns (clauses: seq<Clause>, args: seq<Arg>, argIdx: nat)
    ensures argIdx == |args| + 1
    ensures Means(regex, clauses, args, ColumnsOf(f))
  {
    clauses, args, argIdx := [], [], 1;
    ghost var part := EVERYTHING;
    clauses, args, argIdx :=
        AddColumn(clauses, args, argIdx, VendorName, f.vendor, regex, part, part.(vendor := f.vendor));
    part := part.(vendor := f.vendor);
    clauses, args, argIdx :=
        AddColumn(clauses, args, argIdx, Service, f.service, regex, part, part.(service := f.service));
    part := part.(service := f.service);
    clauses, args, argIdx :=
        AddColumn(clauses, args, argIdx, ProductFamily, f.family, regex, part, part.(family := f.family));
    part := part.(family := f.family);
    clauses, args, argIdx := AddRegion(clauses, args, argIdx, f.region, regex, part);
    part := part.(region := f.region);
    clauses, args, argIdx := AddColumn(clauses, args, argIdx, Sku, f.sku, regex, part, part.(sku := f.sku));
  }

  /** A region also shuts out products sold under a Global usage type. */
  method AddRegion(clauses: seq<Clause>, args: seq<Arg>, argIdx: nat, region: Option<string>,
                   ghost regex: Regex, ghost part: Filter)
      returns (clauses': seq<Clause>, args': seq<Arg>, argIdx': nat)
    requires Means(regex, clauses, args, part) && argIdx == |args| + 1 && part.region.None?
    ensures Means(regex, clauses', args', part.(region := region)) && argIdx' == |args'| + 1
  {
    clauses', args', argIdx' := clauses, args, argIdx;
    if region.Some? {
      clauses' := clauses' + [ColumnIs(Region, argIdx')];
      args' := args' + [Text(region.value)];
      argIdx' := argIdx' + 1;
      clauses' := clauses' + [NotGlobal];
      RegionMeans(regex, clauses, args, part, region);
    }
  }

  lemma RegionMeans(regex: Regex, clauses: seq<Clause>, args: seq<Arg>, part: Filter, region: Option<string>)
    requires Means(regex, clauses, args, part) && part.region.None? && region.Some?
    ensures Means(regex, clauses + [ColumnIs(Region, |args| + 1)] + [NotGlobal], args + [Text(region.value)],
                  part.(region := region))
  {
    var c, more := ColumnIs(Region, |args| + 1), [Text(region.value)];
    var clauses', args' := clauses + [c] + [NotGlobal], args + more;
    var n := |clauses|;
    assert clauses'[..n + 1] == clauses + [c];
    assert (clauses + [c])[..n] == clauses;
    assert Placeholders(clauses') == Placeholders(clauses + [c]) == UpTo(|args|) + [|args| + 1] == UpTo(|args'|);
    forall p ensures AllHold(regex, args', clauses', p) <==> Selects(regex, part.(region := region), p) {
      RegionSelects(regex, clauses, args, part, region, p);
    }
  }

  lemma RegionSelects(regex: Regex, clauses: seq<Clause>, args: seq<Arg>, part: Filter, region: Option<string>,
                      p: Product)
    requires Means(regex, clauses, args, part) && part.region.None? && region.Some?
    ensures AllHold(regex, args + [Text(region.value)], clauses + [ColumnIs(Region, |args| + 1)] + [NotGlobal], p)
       <==> Selects(regex, part.(region := region), p)
  {
    var c, args', n := ColumnIs(Region, |args| + 1), args + [Text(region.value)], |clauses|;
    var clauses' := clauses + [c] + [NotGlobal];
    TailKeepsMeaning(regex, clauses, args, part, [Text(region.value)]);
    assert Holds(regex, args', c, p) <==> p.region == region.value;
    assert Selects(regex, part.(region := region), p)
           <==> Selects(regex, part, p) && p.region == region.value && !IsGlobal(p);
    assert forall i :: 0 <= i < n ==> clauses'[i] == clauses[i];
    if AllHold(regex, args', clauses', p) {
      assert Holds(regex, args', clauses'[n], p) && Holds(regex, args', clauses'[n + 1], p);
      assert forall i :: 0 <= i < n ==> Holds(regex, args', clauses'[i], p);
    }
  }

  lemma OneMoreAttribute(regex: Regex, named: Filter, attributes: seq<AttributeFilter>, i: nat)
    requires i < |attributes|
    ensures forall p :: Selects(regex, named.(attributes := attributes[..i + 1]), p) <==>
              Selects(regex, named.(attributes := attributes[..i]), p) && AttributeSelects(regex, attributes[i], p)
  {
    var shorter, longer := attributes[..i], attributes[..i + 1];
    forall p
      ensures (forall j :: 0 <= j < |longer| ==> AttributeSelects(regex, longer[j], p)) <==>
              (forall j :: 0 <= j < |shorter| ==> AttributeSelects(regex, shorter[j], p))
                  && AttributeSelects(regex, attributes[i], p)
    {
      assert forall j :: 0 <= j < |shorter| ==> longer[j] == shorter[j];
      assert longer[i] == attributes[i];
    }
  }

  /** LIMIT and OFFSET bind further arguments and select nothing. */
  lemma TailKeepsMeaning(regex: Regex, clauses: seq<Clause>, args: seq<Arg>, part: Filter, more: seq<Arg>)
    requires Means(regex, clauses, args, part)
    ensures forall p :: AllHold(regex, args + more, clauses, p) <==> Selects(regex, part, p)
  {
    forall p, i | 0 <= i < |clauses|
      ensures Holds(regex, args + more, clauses[i], p) <==> Holds(regex, args, clauses[i], p)
    {
      assert InRange(clauses[i], |args|);
      HoldsStable(regex, args, args + more, clauses[i], p);
    }
  }
}
