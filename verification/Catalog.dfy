/** The records every other module talks about: products as the scrapers emit
    them and as the products table stores them. */
module Catalog {

  datatype Option<+T> = None | Some(value: T)

  /** One price tier of a product; every field is text in the database. */
  datatype Price = Price(
    priceHash: string,
    purchaseOption: string,
    unit: string,
    usd: string,
    startUsageAmount: string,
    endUsageAmount: string,
    description: string,
    termLength: string,
    termPurchaseOption: string,
    termOfferingClass: string)

  datatype Product = Product(
    hash: string,
    sku: string,
    vendor: string,
    region: string,
    service: string,
    family: string,
    attributes: map<string, string>,
    prices: seq<Price>)

  /** A stored product; `updatedAt` is a database timestamp. */
  datatype Row = Row(product: Product, updatedAt: int)

  /** The products table, keyed by its UNIQUE column product_hash. */
  type Table = map<string, Row>

  /** The GCP service whose products carry the CPU and RAM prices. */
  const COMPUTE_ENGINE := "Compute Engine"

  function Hashes(products: seq<Product>): set<string> {
    set p | p in products :: p.hash
  }

  function Min(a: int, b: int): int {
    if a < b then a else b
  }

  const DEFAULT_PRODUCT_LIMIT := 5000
  const MAX_PRODUCT_LIMIT := 5000

  /** The row limit the query layer applies. Zero and oversized requests mean
      "the most there is", so a clamped limit must never become zero. */
  function EffectiveLimit(requested: int): (limit: int)
    ensures 1 <= limit <= 5000
    ensures 1 <= requested <= 5000 ==> limit == requested
    ensures requested < 1 || 5000 < requested ==> limit == 5000
  {
    if requested <= 0 || requested > MAX_PRODUCT_LIMIT then DEFAULT_PRODUCT_LIMIT else requested
  }

  /** strings.Contains. */
  predicate Contains(s: string, word: string) {
    word <= s || (s != [] && Contains(s[1..], word))
  }

  ghost predicate Has(s: string, word: string) {
    exists before, after :: s == before + word + after
  }

  lemma {:induction false} ContainsIff(s: string, word: string)
    ensures Contains(s, word) <==> Has(s, word)
  {
    if word <= s {
      assert s == [] + word + s[|word|..];
    } else if s != [] {
      ContainsIff(s[1..], word);
      if Has(s[1..], word) {
        var before, after :| s[1..] == before + word + after;
        assert s == ([s[0]] + before) + word + after;
      }
      if Has(s, word) {
        var before, after :| s == before + word + after;
        assert before != [];
        assert s[1..] == before[1..] + word + after;
      }
    }
  }

  lemma SubsetSize<T>(a: set<T>, b: set<T>)
    requires a <= b
    ensures |a| <= |b|
  {
    if a != {} {
      var x :| x in a;
      SubsetSize(a - {x}, b - {x});
    }
  }

  lemma HashesConcat(a: seq<Product>, b: seq<Product>)
    ensures Hashes(a + b) == Hashes(a) + Hashes(b)
  {
    assert forall p :: p in a + b <==> p in a || p in b;
  }
}
