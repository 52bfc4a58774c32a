/** The chunked multi-row upsert of internal/db/queries.go. */
module BatchUpsert {
  import opened Catalog

  const BATCH_SIZE := 1000
  const COLS_PER_ROW := 8
  const MAX_POSTGRES_PARAMS := 65535
  const MAX_BATCH_SIZE := MAX_POSTGRES_PARAMS / COLS_PER_ROW

  /** `ChangedOnly` is the statement the code sends. `TouchAll` is the design it
      replaced, where a conflict always rewrites the row and its timestamp. */
  datatype Design = ChangedOnly | TouchAll

  // ---------------------------------------------------------------- one statement

  predicate Changed(stored: Product, sent: Product) {
    stored.prices != sent.prices || stored.attributes != sent.attributes || stored.sku != sent.sku
  }

  /** ON CONFLICT DO UPDATE: the columns set at insert time survive. */
  function Overwrite(stored: Product, sent: Product): Product {
    stored.(sku := sent.sku, attributes := sent.attributes, prices := sent.prices)
  }

  function Written(design: Design, table: Table, sent: Product, now: int): Row {
    if sent.hash !in table then
      Row(sent, now)
    else if design.TouchAll? || Changed(table[sent.hash].product, sent) then
      Row(Overwrite(table[sent.hash].product, sent), now)
    else
      table[sent.hash]
  }

  /** First product of `batch` with hash `h`. */
  function FirstOf(batch: seq<Product>, h: string): (p: Product)
    requires h in Hashes(batch)
    ensures p in batch && p.hash == h
  {
    if batch[0].hash == h then batch[0] else FirstOf(batch[1..], h)
  }

  /** Effect of one upsert over a batch of which only first occurrences are sent. */
  function UpsertStatement(design: Design, table: Table, batch: seq<Product>, now: int): Table {
    map h | h in table.Keys + Hashes(batch) ::
      if h in Hashes(batch) then Written(design, table, FirstOf(batch, h), now) else table[h]
  }

  /** The two designs, row by row: the one rewrites every row it is sent, the other
      only those whose content differs. */
  lemma DesignsMean(table: Table, batch: seq<Product>, now: int, h: string)
    requires h in Hashes(batch)
    ensures var sent := FirstOf(batch, h);
            var touched := UpsertStatement(TouchAll, table, batch, now);
            var changed := UpsertStatement(ChangedOnly, table, batch, now);
            && h in touched && touched[h].updatedAt == now && touched[h].product.sku == sent.sku
            && touched[h].product.attributes == sent.attributes && touched[h].product.prices == sent.prices
            && h in changed
            && (if h in table && table[h].product.sku == sent.sku && table[h].product.attributes == sent.attributes
                   && table[h].product.prices == sent.prices
                then changed[h] == table[h] else changed[h] == touched[h])
  {
  }

  lemma FirstOfIndex(batch: seq<Product>, j: nat)
    requires j < |batch|
    requires forall i :: 0 <= i < j ==> batch[i].hash != batch[j].hash
    ensures batch[j].hash in Hashes(batch)
    ensures FirstOf(batch, batch[j].hash) == batch[j]
  {
    if j > 0 {
      assert batch[1..][j - 1] == batch[j];
      FirstOfIndex(batch[1..], j - 1);
      assert batch[0].hash != batch[j].hash;
    }
  }

  lemma FirstOfPosition(batch: seq<Product>, h: string) returns (j: nat)
    requires h in Hashes(batch)
    ensures j < |batch| && batch[j].hash == h && FirstOf(batch, h) == batch[j]
    ensures forall i :: 0 <= i < j ==> batch[i].hash != h
  {
    if batch[0].hash == h {
      j := 0;
    } else {
      var k := FirstOfPosition(batch[1..], h);
      j := k + 1;
      assert forall i :: 1 <= i < j ==> batch[i] == batch[1..][i - 1];
    }
  }

  // ---------------------------------------------------------------- all chunks

  /** Consecutive chunks of at most BATCH_SIZE products, all but the last full. */
  function Chunks(products: seq<Product>): (chunks: seq<seq<Product>>)
    ensures Concat(chunks) == products
    ensures forall c :: c in chunks ==> 0 < |c| <= 1000
    ensures forall k :: 0 <= k < |chunks| - 1 ==> |chunks[k]| == 1000
  {
    if |products| == 0 then []
    else if |products| <= BATCH_SIZE then
      assert Concat([]) == [];
      [products]
    else
      [products[..BATCH_SIZE]] + Chunks(products[BATCH_SIZE..])
  }

  function Concat(chunks: seq<seq<Product>>): seq<Product> {
    if chunks == [] then [] else chunks[0] + Concat(chunks[1..])
  }

  /** The table after all `chunks`; chunk number k (from 0) runs at now + k + 1. */
  function UpsertChunks(design: Design, table: Table, chunks: seq<seq<Product>>, now: int): Table {
    var n := |chunks|;
    if n == 0 then table
    else UpsertStatement(design, UpsertChunks(design, table, chunks[..n - 1], now), chunks[n - 1], now + n)
  }

  /** Position n of chunk k decides what is stored for its hash: it is the first
      occurrence within the last chunk that contains the hash. */
  ghost predicate Decides(chunks: seq<seq<Product>>, k: nat, n: nat) {
    && k < |chunks| && n < |chunks[k]|
    && (forall m :: 0 <= m < n ==> chunks[k][m].hash != chunks[k][n].hash)
    && (forall c :: k < c < |chunks| ==> chunks[k][n].hash !in Hashes(chunks[c]))
  }

  lemma {:induction false} DecidingIsUnchanged(
      design: Design, table: Table, chunks: seq<seq<Product>>, now: int, k: nat, n: nat)
    requires Decides(chunks, k, n)
    ensures var r := UpsertChunks(design, table, chunks, now);
            && chunks[k][n].hash in r
            && !Changed(r[chunks[k][n].hash].product, chunks[k][n])
  {
    var last := |chunks| - 1;
    if k == last {
      FirstOfIndex(chunks[k], n);
    } else {
      DecidingIsUnchanged(design, table, chunks[..last], now, k, n);
    }
  }

  lemma UnchangedMeans(a: Product, b: Product)
    ensures !Changed(a, b) <==> a.sku == b.sku && a.attributes == b.attributes && a.prices == b.prices
  {
  }

  /** What is stored for a sent hash: sku, attributes and prices of the deciding
      occurrence. */
  lemma DecidingOccurrenceIsStored(
      design: Design, table: Table, chunks: seq<seq<Product>>, now: int, k: nat, n: nat)
    requires Decides(chunks, k, n)
    ensures var r := UpsertChunks(design, table, chunks, now);
            var sent := chunks[k][n];
            && sent.hash in r
            && r[sent.hash].product.sku == sent.sku && r[sent.hash].product.attributes == sent.attributes
            && r[sent.hash].product.prices == sent.prices
  {
    DecidingIsUnchanged(design, table, chunks, now, k, n);
    UnchangedMeans(UpsertChunks(design, table, chunks, now)[chunks[k][n].hash].product, chunks[k][n]);
  }

  /** Every hash that was sent has a deciding occurrence. */
  lemma {:induction false} SomeOccurrenceDecides(chunks: seq<seq<Product>>, h: string) returns (k: nat, n: nat)
    requires h in Hashes(Concat(chunks))
    ensures Decides(chunks, k, n) && chunks[k][n].hash == h
  {
    var p :| p in Concat(chunks) && p.hash == h;
    var c := ChunkHolding(chunks, p);
    k := |chunks| - 1;
    while h !in Hashes(chunks[k])
      invariant c <= k < |chunks|
      invariant forall d :: k < d < |chunks| ==> h !in Hashes(chunks[d])
      decreases k
    {
      k := k - 1;
    }
    n := FirstOfPosition(chunks[k], h);
  }

  lemma {:induction false} ChunkHolding(chunks: seq<seq<Product>>, p: Product) returns (c: nat)
    requires p in Concat(chunks)
    ensures c < |chunks| && p in chunks[c]
  {
    if p in chunks[0] {
      c := 0;
    } else {
      c := ChunkHolding(chunks[1..], p);
      c := c + 1;
    }
  }

  /** Hashes that were not sent keep their rows, and none is invented. */
  lemma {:induction false} OnlySentHashesChange(
      design: Design, table: Table, chunks: seq<seq<Product>>, now: int, h: string)
    requires forall c :: c in chunks ==> h !in Hashes(c)
    ensures var r := UpsertChunks(design, table, chunks, now);
            (h in r <==> h in table) && (h in table ==> r[h] == table[h])
  {
    var last := |chunks| - 1;
    if last >= 0 {
      OnlySentHashesChange(design, table, chunks[..last], now, h);
      assert chunks[last] in chunks;
    }
  }

  predicate SameIdentity(a: Product, b: Product) {
    a.hash == b.hash && a.vendor == b.vendor && a.region == b.region && a.service == b.service && a.family == b.family
  }

  /** Vendor, region, service and family are those of the first insert, however
      many later occurrences disagree. */
  lemma {:induction false} IdentityIsSetAtInsert(
      design: Design, table: Table, chunks: seq<seq<Product>>, now: int, h: string)
    requires h in Hashes(Concat(chunks)) || h in table
    ensures var r := UpsertChunks(design, table, chunks, now);
            && h in r
            && SameIdentity(r[h].product, if h in table then table[h].product else FirstOf(Concat(chunks), h))
  {
    var n := |chunks|;
    if n > 0 {
      var first, last := chunks[..n - 1], chunks[n - 1];
      ConcatLast(first, last);
      assert chunks == first + [last];
      HashesConcat(Concat(first), last);
      if h in table || h in Hashes(Concat(first)) {
        IdentityIsSetAtInsert(design, table, first, now, h);
      } else {
        assert forall c :: c in first ==> h !in Hashes(c) by {
          forall c | c in first ensures h !in Hashes(c) { HashInConcat(first, c, h); }
        }
        OnlySentHashesChange(design, table, first, now, h);
      }
      if h in Hashes(Concat(chunks)) {
        FirstOfConcat(Concat(first), last, h);
      }
    }
  }

  lemma {:induction false} ConcatLast(first: seq<seq<Product>>, last: seq<Product>)
    ensures Concat(first + [last]) == Concat(first) + last
  {
    if first == [] {
      assert Concat([last][1..]) == [];
    } else {
      ConcatLast(first[1..], last);
      assert (first + [last])[1..] == first[1..] + [last];
    }
  }

  lemma {:induction false} HashInConcat(chunks: seq<seq<Product>>, c: seq<Product>, h: string)
    requires c in chunks
    ensures h in Hashes(c) ==> h in Hashes(Concat(chunks))
  {
    HashesConcat(chunks[0], Concat(chunks[1..]));
    if c != chunks[0] {
      HashInConcat(chunks[1..], c, h);
    }
  }

  lemma {:induction false} FirstOfConcat(a: seq<Product>, b: seq<Product>, h: string)
    requires h in Hashes(a + b)
    ensures FirstOf(a + b, h) == if h in Hashes(a) then FirstOf(a, h) else FirstOf(b, h)
  {
    HashesConcat(a, b);
    if a == [] {
      assert a + b == b;
    } else if a[0].hash != h {
      assert (a + b)[1..] == a[1..] + b;
      assert a == [a[0]] + a[1..];
      HashesConcat([a[0]], a[1..]);
      HashesConcat(a[1..], b);
      FirstOfConcat(a[1..], b, h);
    }
  }

  /** One statement on a row that was `row` some statements ago. */
  lemma StatementMarksChange(row: Row, was: Table, batch: seq<Product>, now: int, h: string)
    requires h in was && row.updatedAt <= was[h].updatedAt < now
    requires was[h].updatedAt == row.updatedAt <==> was[h] == row
    ensures var r := UpsertStatement(ChangedOnly, was, batch, now);
            && h in r && row.updatedAt <= r[h].updatedAt <= now
            && (r[h].updatedAt == row.updatedAt <==> r[h] == row)
            && (r[h] == row <==> was[h] == row && KeepsContent(row, batch, h))
  {
  }

  ghost predicate KeepsContent(row: Row, batch: seq<Product>, h: string) {
    h in Hashes(batch) ==>
      var sent := FirstOf(batch, h);
      row.product.sku == sent.sku && row.product.attributes == sent.attributes && row.product.prices == sent.prices
  }

  /** `updated_at` means "content last changed": a row keeps its timestamp
      exactly when every chunk that carries its hash carries the stored content,
      and then the whole row is untouched. */
  ghost predicate MarksChange(row: Row, chunks: seq<seq<Product>>, r: Table, now: int, h: string) {
    && h in r && row.updatedAt <= r[h].updatedAt <= now + |chunks|
    && (r[h].updatedAt == row.updatedAt <==> r[h] == row)
    && (r[h].updatedAt == row.updatedAt <==> forall c :: c in chunks ==> KeepsContent(row, c, h))
  }

  lemma {:induction false} TimestampMarksChange(table: Table, chunks: seq<seq<Product>>, now: int, h: string)
    requires h in table && table[h].updatedAt <= now
    ensures MarksChange(table[h], chunks, UpsertChunks(ChangedOnly, table, chunks, now), now, h)
  {
    var n := |chunks|;
    if n > 0 {
      TimestampMarksChange(table, chunks[..n - 1], now, h);
      assert chunks == chunks[..n - 1] + [chunks[n - 1]];
      OneMoreMarksChange(table[h], chunks[..n - 1], UpsertChunks(ChangedOnly, table, chunks[..n - 1], now),
                         chunks[n - 1], now, h);
    }
  }

  lemma OneMoreMarksChange(row: Row, chunks: seq<seq<Product>>, was: Table, last: seq<Product>, now: int, h: string)
    requires MarksChange(row, chunks, was, now, h)
    ensures MarksChange(row, chunks + [last], UpsertStatement(ChangedOnly, was, last, now + |chunks| + 1), now, h)
  {
    StatementMarksChange(row, was, last, now + |chunks| + 1, h);
    assert forall c :: c in chunks + [last] <==> c in chunks || c == last;
  }

  // ---------------------------------------------------------------- the code

  /** A bound argument of a prepared statement. */
  datatype Column = Text(text: string) | Attributes(attributes: map<string, string>) | Prices(prices: seq<Price>)

  /** The eight arguments of one VALUES group. */
  function Columns(p: Product): (cs: seq<Column>)
    ensures |cs| == COLS_PER_ROW
  {
    [Text(p.hash), Text(p.sku), Text(p.vendor), Text(p.region), Text(p.service), Text(p.family),
     Attributes(p.attributes), Prices(p.prices)]
  }

  predicate Distinct(products: seq<Product>) {
    forall i, j :: 0 <= i < j < |products| ==> products[i].hash != products[j].hash
  }

  /** `groups` and `args` are a well-formed INSERT of exactly `products`: the
      placeholders run from $1 without gaps or repeats, each group binds the
      eight columns of its product, and no placeholder passes the limit. */
  ghost predicate IsInsertOf(groups: seq<seq<nat>>, args: seq<Column>, products: seq<Product>) {
    && |groups| == |products| && |args| == COLS_PER_ROW * |products| <= MAX_POSTGRES_PARAMS
    && forall i :: 0 <= i < |products| ==> BindsRow(groups[i], args, i, products[i])
  }

  ghost predicate BindsRow(group: seq<nat>, args: seq<Column>, i: nat, p: Product)
    requires COLS_PER_ROW * (i + 1) <= |args|
  {
    && group == seq(COLS_PER_ROW, c => COLS_PER_ROW * i + c + 1)
    && args[COLS_PER_ROW * i .. COLS_PER_ROW * (i + 1)] == Columns(p)
  }

  function ChunksFrom(products: seq<Product>, i: nat): seq<seq<Product>> {
    if i < |products| then Chunks(products[i..]) else []
  }

  lemma CutChunk(products: seq<Product>, i: nat)
    requires i < |products|
    ensures var end := Min(i + BATCH_SIZE, |products|);
            ChunksFrom(products, i) == [products[i..end]] + ChunksFrom(products, i + BATCH_SIZE)
  {
    var rest := products[i..];
    if |rest| > BATCH_SIZE {
      assert rest[..BATCH_SIZE] == products[i..i + BATCH_SIZE];
      assert rest[BATCH_SIZE..] == products[i + BATCH_SIZE..];
    } else {
      assert rest == products[i..|products|];
    }
  }

  /** At loop variable `i`, the chunks from number `done` on are still to come. */
  ghost predicate AtChunk(products: seq<Product>, i: nat, done: nat) {
    done <= |Chunks(products)| && Chunks(products)[done..] == ChunksFrom(products, i)
  }

  lemma NextChunk(products: seq<Product>, i: nat, done: nat)
    requires i < |products| && AtChunk(products, i, done)
    ensures done < |Chunks(products)|
    ensures products[i..Min(i + BATCH_SIZE, |products|)] == Chunks(products)[done]
    ensures AtChunk(products, i + BATCH_SIZE, done + 1)
  {
    CutChunk(products, i);
    PeelOne(Chunks(products), done, products[i..Min(i + BATCH_SIZE, |products|)], ChunksFrom(products, i + BATCH_SIZE));
  }

  lemma FirstChunkStarts(products: seq<Product>)
    ensures AtChunk(products, 0, 0)
  {
    if |products| > 0 {
      assert products[0..] == products;
    }
  }

  lemma NextChunkStarts(products: seq<Product>, i: nat, k: nat)
    requires AtChunk(products, i, k) && k < |Chunks(products)|
    ensures AtChunk(products, i + BATCH_SIZE, k + 1)
  {
    ComesNext(products, i, k);
    NextChunk(products, i, k);
  }

  lemma {:induction false} EveryStep(at: (nat, nat) -> bool, n: nat, k: nat)
    requires at(0, 0) && (forall i: nat, d: nat :: at(i, d) && d < n ==> at(i + BATCH_SIZE, d + 1)) && k <= n
    ensures at(k * BATCH_SIZE, k)
  {
    if k > 0 {
      EveryStep(at, n, k - 1);
      assert (k - 1) * BATCH_SIZE + BATCH_SIZE == k * BATCH_SIZE;
    }
  }

  lemma EveryChunkStarts(products: seq<Product>, k: nat, i: nat)
    requires k <= |Chunks(products)| && i == k * BATCH_SIZE
    ensures AtChunk(products, i, k)
  {
    var at := (i: nat, d: nat) => AtChunk(products, i, d);
    FirstChunkStarts(products);
    forall i: nat, d: nat | at(i, d) && d < |Chunks(products)| ensures at(i + BATCH_SIZE, d + 1) {
      NextChunkStarts(products, i, d);
    }
    EveryStep(at, |Chunks(products)|, k);
  }

  lemma ComesNext(products: seq<Product>, i: nat, done: nat)
    requires AtChunk(products, i, done)
    ensures done < |Chunks(products)| <==> i < |products|
  {
    assert |Chunks(products)[done..]| == |Chunks(products)| - done;
  }

  lemma ChunksReachTo(products: seq<Product>, k: nat, i: nat)
    requires k <= |Chunks(products)| && i == k * BATCH_SIZE
    ensures k < |Chunks(products)| <==> i < |products|
  {
    EveryChunkStarts(products, k, i);
    ComesNext(products, i, k);
  }

  /** Chunk number `k` starts at product k * BATCH_SIZE. */
  lemma ChunkAt(products: seq<Product>, k: nat, i: nat)
    requires k < |Chunks(products)| && i == k * BATCH_SIZE
    ensures i < |products| && Chunks(products)[k] == products[i..Min(i + BATCH_SIZE, |products|)]
  {
    EveryChunkStarts(products, k, i);
    ComesNext(products, i, k);
    NextChunk(products, i, k);
  }

  lemma PeelOne(chunks: seq<seq<Product>>, done: nat, first: seq<Product>, rest: seq<seq<Product>>)
    requires done <= |chunks| && chunks[done..] == [first] + rest
    ensures done < |chunks| && chunks[done] == first && chunks[done + 1..] == rest
  {
    assert chunks[done..][0] == first && chunks[done..][1..] == rest;
  }

  lemma OneMoreChunk(table: Table, chunks: seq<seq<Product>>, now: int, k: nat)
    requires k < |chunks|
    ensures UpsertChunks(ChangedOnly, table, chunks[..k + 1], now)
         == UpsertStatement(ChangedOnly, UpsertChunks(ChangedOnly, table, chunks[..k], now), chunks[k], now + k + 1)
  {
    assert chunks[..k + 1][..k] == chunks[..k];
  }

  /** Sending only first occurrences is the same statement. */
  lemma SameStatement(table: Table, products: seq<Product>, deduped: seq<Product>, now: int)
    requires SameFirsts(products, deduped)
    ensures UpsertStatement(ChangedOnly, table, deduped, now) == UpsertStatement(ChangedOnly, table, products, now)
  {
  }

  /** Keeps the first product of every hash. */
  method Deduplicate(products: seq<Product>) returns (deduped: seq<Product>)
    ensures Distinct(deduped) && |deduped| <= |products|
    ensures SameFirsts(products, deduped)
    ensures forall p :: p in deduped <==>
              exists j ::
                0 <= j < |products| && products[j] == p && forall i :: 0 <= i < j ==> products[i].hash != p.hash
  {
    var seen: set<string> := {};
    deduped := [];
    for i := 0 to |products|
      invariant seen == Hashes(deduped)
      invariant SameFirsts(products[..i], deduped)
      invariant Distinct(deduped) && |deduped| <= i
    {
      assert products[..i + 1] == products[..i] + [products[i]];
      FirstSeen(products[..i], deduped, products[i]);
      if products[i].hash !in seen {
        HashesConcat(deduped, [products[i]]);
        assert Hashes([products[i]]) == {products[i].hash};
        StillDistinct(deduped, products[i]);
        seen := seen + {products[i].hash};
        deduped := deduped + [products[i]];
      }
    }
    assert products[..|products|] == products;
    forall p ensures p in deduped <==>
              exists j ::
                0 <= j < |products| && products[j] == p && forall i :: 0 <= i < j ==> products[i].hash != p.hash
    {
      KeptIffFirst(products, deduped, p);
    }
  }

  lemma KeptIffFirst(products: seq<Product>, deduped: seq<Product>, p: Product)
    requires Distinct(deduped) && SameFirsts(products, deduped)
    ensures p in deduped <==>
              exists j ::
                0 <= j < |products| && products[j] == p && forall i :: 0 <= i < j ==> products[i].hash != p.hash
  {
    if p in deduped {
      assert p.hash in Hashes(deduped);
      var k := FirstOfPosition(deduped, p.hash);
      var j := FirstOfPosition(products, p.hash);
      var n :| 0 <= n < |deduped| && deduped[n] == p;
      assert n == k;
    }
    if j :| 0 <= j < |products| && products[j] == p && forall i :: 0 <= i < j ==> products[i].hash != p.hash {
      FirstOfIndex(products, j);
      var k := FirstOfPosition(deduped, p.hash);
    }
  }

  /** Same hashes, same first product for each. */
  ghost predicate SameFirsts(a: seq<Product>, b: seq<Product>) {
    Hashes(a) == Hashes(b) && forall h :: h in Hashes(a) ==> FirstOf(a, h) == FirstOf(b, h)
  }

  lemma StillDistinct(deduped: seq<Product>, p: Product)
    requires Distinct(deduped) && p.hash !in Hashes(deduped)
    ensures Distinct(deduped + [p])
  {
    assert forall q :: q in deduped ==> q.hash in Hashes(deduped);
  }

  /** A product whose hash is known changes no first; one whose hash is new is
      the first of it on both sides. */
  lemma FirstSeen(prefix: seq<Product>, deduped: seq<Product>, p: Product)
    requires SameFirsts(prefix, deduped)
    ensures p.hash in Hashes(deduped) ==> SameFirsts(prefix + [p], deduped)
    ensures p.hash !in Hashes(deduped) ==> SameFirsts(prefix + [p], deduped + [p])
  {
    HashesConcat(prefix, [p]);
    HashesConcat(deduped, [p]);
    assert Hashes([p]) == {p.hash};
    forall h | h in Hashes(prefix + [p])
      ensures h in Hashes(deduped) ==> FirstOf(prefix + [p], h) == FirstOf(deduped, h) == FirstOf(deduped + [p], h)
      ensures h !in Hashes(deduped) ==> FirstOf(prefix + [p], h) == p == FirstOf(deduped + [p], h)
    {
      FirstOfConcat(prefix, [p], h);
      FirstOfConcat(deduped, [p], h);
    }
  }

  method BuildInsert(products: seq<Product>) returns (groups: seq<seq<nat>>, args: seq<Column>)
    requires |products| <= MAX_BATCH_SIZE
    ensures IsInsertOf(groups, args, products)
    ensures |groups| == |products| && |args| == 8 * |products| <= 65535
    ensures forall i :: 0 <= i < |products| ==>
              groups[i] == [8 * i + 1, 8 * i + 2, 8 * i + 3, 8 * i + 4, 8 * i + 5, 8 * i + 6, 8 * i + 7, 8 * i + 8]
    ensures forall i :: 0 <= i < |products| ==>
              var p := products[i];
              args[8 * i .. 8 * i + 8] == [Text(p.hash), Text(p.sku), Text(p.vendor), Text(p.region), Text(p.service),
                                           Text(p.family), Attributes(p.attributes), Prices(p.prices)]
  {
    groups, args := [], [];
    for i := 0 to |products|
      invariant |groups| == i && |args| == COLS_PER_ROW * i
      invariant forall j :: 0 <= j < i ==> BindsRow(groups[j], args, j, products[j])
    {
      var base := i * COLS_PER_ROW;
      ghost var before := args;
      groups := groups + [[base + 1, base + 2, base + 3, base + 4, base + 5, base + 6, base + 7, base + 8]];
      args := args + Columns(products[i]);
      forall j | 0 <= j < i ensures BindsRow(groups[j], args, j, products[j]) {
        assert args[COLS_PER_ROW * j .. COLS_PER_ROW * (j + 1)] == before[COLS_PER_ROW * j .. COLS_PER_ROW * (j + 1)];
      }
    }
    forall i | 0 <= i < |products| {
      RowSpelledOut(groups[i], args, i, products[i]);
    }
  }

  lemma RowSpelledOut(group: seq<nat>, args: seq<Column>, i: nat, p: Product)
    requires COLS_PER_ROW * (i + 1) <= |args| && BindsRow(group, args, i, p)
    ensures group == [8 * i + 1, 8 * i + 2, 8 * i + 3, 8 * i + 4, 8 * i + 5, 8 * i + 6, 8 * i + 7, 8 * i + 8]
    ensures 8 * i + 8 <= |args|
    ensures args[8 * i .. 8 * i + 8] == [Text(p.hash), Text(p.sku), Text(p.vendor), Text(p.region), Text(p.service),
                                         Text(p.family), Attributes(p.attributes), Prices(p.prices)]
  {
  }
}
