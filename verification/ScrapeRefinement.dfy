/** Skipping unchanged rows and keeping a seen-set behaves like the design it
    replaced, which rewrote every row and deleted by timestamp alone. */
module ScrapeRefinement {
  import opened Catalog
  import opened BatchUpsert
  import opened ScrapeStore
  import opened ScrapeMachine
  import opened ScrapeInvariants
  import opened ScrapeSafety

  function Contents(products: Table): map<string, Product> {
    map h | h in products :: products[h].product
  }

  /** Equal up to the timestamps of products: same hashes and contents, same run
      records (with their deleted counts), same marks, locks and processes. */
  ghost predicate Agree(a: Sys, b: Sys) {
    && a.procs == b.procs
    && a.db.(products := map[]) == b.db.(products := map[])
    && Contents(a.db.products) == Contents(b.db.products)
  }

  lemma ContentsAt(a: Table, b: Table, h: string)
    requires Contents(a) == Contents(b)
    ensures h in a <==> h in b
    ensures h in a ==> a[h].product == b[h].product
  {
    assert h in Contents(a) <==> h in Contents(b);
    assert h in a ==> Contents(a)[h] == Contents(b)[h];
  }

  /** Skipping an unchanged row stores the same content as rewriting it. */
  lemma UpsertAgrees(a: Table, b: Table, batch: seq<Product>, now: int)
    requires Contents(a) == Contents(b)
    ensures Contents(UpsertStatement(ChangedOnly, a, batch, now)) == Contents(UpsertStatement(TouchAll, b, batch, now))
  {
    var a', b' := UpsertStatement(ChangedOnly, a, batch, now), UpsertStatement(TouchAll, b, batch, now);
    forall h ensures (h in a' <==> h in b') && (h in a' ==> a'[h].product == b'[h].product) {
      ContentsAt(a, b, h);
    }
  }

  /** When a cleanup runs, the fresh rows, the marks and the delivered hashes all
      coincide, so both designs delete the same rows. */
  lemma StaleAgrees(owner: string -> string, a: Database, b: Database, pid: nat, p: Proc)
    requires ProcOk(owner, a, pid, p) && ProcOk(owner, b, pid, p) && p.phase.Deleting?
    requires Synced(ChangedOnly, a, p) && Synced(TouchAll, b, p)
    requires a.seen == b.seen && Contents(a.products) == Contents(b.products)
    ensures StaleHashes(ChangedOnly, a, p.vendor, p.run, p.start) == StaleHashes(TouchAll, b, p.vendor, p.run, p.start)
  {
    var marked := SeenBy(a.seen, p.run);
    assert WrittenBy(p.calls) == {};
    assert Fresh(a.products, p.vendor, p.start) <= marked;
    assert Fresh(b.products, p.vendor, p.start) == marked;
    forall h
      ensures h in StaleHashes(ChangedOnly, a, p.vendor, p.run, p.start)
         <==> h in StaleHashes(TouchAll, b, p.vendor, p.run, p.start)
    {
      ContentsAt(a.products, b.products, h);
      MarkedIff(a.seen, p.run, h);
      assert h in Fresh(a.products, p.vendor, p.start) ==> h in marked;
      assert h in Fresh(b.products, p.vendor, p.start) <==> h in marked;
    }
  }

  lemma MarkedIff(seen: set<(nat, string)>, run: nat, h: string)
    ensures h in SeenBy(seen, run) <==> (run, h) in seen
  {
    if (run, h) in seen {
      assert (run, h).1 in SeenBy(seen, run);
    }
  }

  lemma RemovalAgrees(a: Table, b: Table, gone: set<string>)
    requires Contents(a) == Contents(b)
    ensures Contents(a - gone) == Contents(b - gone)
  {
    forall h ensures h in a - gone <==> h in b - gone {
      ContentsAt(a, b, h);
    }
    forall h | h in a - gone ensures (a - gone)[h].product == (b - gone)[h].product {
      ContentsAt(a, b, h);
    }
  }

  lemma ActAgrees(owner: string -> string, a: Sys, b: Sys, pid: nat, act: Act)
    requires Inv(owner, a) && AllSynced(ChangedOnly, a) && Inv(owner, b) && AllSynced(TouchAll, b)
    requires Agree(a, b) && Enabled(a, Do(pid, act))
    ensures Enabled(b, Do(pid, act))
    ensures Agree(Step(ChangedOnly, a, Do(pid, act)), Step(TouchAll, b, Do(pid, act)))
  {
    var p := a.procs[pid];
    match act
    case UpsertChunk(call) =>
      UpsertAgrees(a.db.products, b.db.products, NextWrite(p.calls[call]), a.db.clock + 1);
    case DeleteStale =>
      StaleAgrees(owner, a.db, b.db, pid, p);
      RemovalAgrees(a.db.products, b.db.products, StaleHashes(ChangedOnly, a.db, p.vendor, p.run, p.start));
    case _ =>
      QuietActAgrees(a.db, b.db, p, act);
  }

  lemma QuietActAgrees(a: Database, b: Database, p: Proc, act: Act)
    requires a.(products := map[]) == b.(products := map[])
    requires CanAct(a, p, act) && !act.UpsertChunk? && !act.DeleteStale?
    ensures CanAct(b, p, act) && ProcAfter(ChangedOnly, a, p, act) == ProcAfter(TouchAll, b, p, act)
    ensures var a', b' := DbAfter(ChangedOnly, a, p, act), DbAfter(TouchAll, b, p, act);
            && a'.(products := map[]) == b'.(products := map[])
            && a'.products == a.products && b'.products == b.products
  {
    assert a == a.(products := map[]).(products := a.products);
    assert b == a.(products := b.products);
  }

  lemma StepAgrees(owner: string -> string, a: Sys, b: Sys, e: Event)
    requires Inv(owner, a) && AllSynced(ChangedOnly, a) && Inv(owner, b) && AllSynced(TouchAll, b)
    requires Agree(a, b) && Enabled(a, e) && WellFormed(owner, a, e) && Orderly(a, e)
    ensures Enabled(b, e) && WellFormed(owner, b, e) && Orderly(b, e)
    ensures Agree(Step(ChangedOnly, a, e), Step(TouchAll, b, e))
  {
    match e
    case Do(pid, act) => ActAgrees(owner, a, b, pid, act);
    case Seed(batch) => UpsertAgrees(a.db.products, b.db.products, batch, a.db.clock + 1);
    case _ => QuietStepAgrees(a, b, e);
  }

  lemma QuietStepAgrees(a: Sys, b: Sys, e: Event)
    requires Agree(a, b) && Enabled(a, e) && !e.Do? && !e.Seed?
    ensures Enabled(b, e)
    ensures Agree(Step(ChangedOnly, a, e), Step(TouchAll, b, e))
  {
    assert b.db == a.db.(products := b.db.products);
  }

  /** The main theorem, from any pair of related states. */
  lemma {:induction false} HistoriesAgree(owner: string -> string, a: Sys, b: Sys, events: seq<Event>)
    requires Inv(owner, a) && AllSynced(ChangedOnly, a) && Inv(owner, b) && AllSynced(TouchAll, b)
    requires Agree(a, b)
    requires IsHistory(ChangedOnly, a, events)
    requires WellFormedHistory(owner, ChangedOnly, a, events) && OrderlyHistory(ChangedOnly, a, events)
    ensures IsHistory(TouchAll, b, events)
    ensures Agree(After(ChangedOnly, a, events), After(TouchAll, b, events))
    decreases |events|
  {
    if events != [] {
      var e := events[0];
      StepAgrees(owner, a, b, e);
      StepKeepsInv(owner, ChangedOnly, a, e);
      StepKeepsSynced(owner, ChangedOnly, a, e);
      StepKeepsInv(owner, TouchAll, b, e);
      StepKeepsSynced(owner, TouchAll, b, e);
      HistoriesAgree(owner, Step(ChangedOnly, a, e), Step(TouchAll, b, e), events[1..]);
    }
  }

  lemma BootHolds(owner: string -> string, design: Design, products: Table, clock: int)
    requires TableOk(owner, products, clock)
    ensures Inv(owner, Boot(products, clock)) && AllSynced(design, Boot(products, clock))
  {
  }

  /** Whatever the table held at the start, after every orderly interleaving of
      scrapes both designs store the same products with the same content. */
  lemma ChangedOnlyRefinesTouchAll(owner: string -> string, products: Table, clock: int, events: seq<Event>)
    requires TableOk(owner, products, clock)
    requires IsHistory(ChangedOnly, Boot(products, clock), events)
    requires WellFormedHistory(owner, ChangedOnly, Boot(products, clock), events)
    requires OrderlyHistory(ChangedOnly, Boot(products, clock), events)
    ensures IsHistory(TouchAll, Boot(products, clock), events)
    ensures var a := After(ChangedOnly, Boot(products, clock), events);
            var b := After(TouchAll, Boot(products, clock), events);
            && Contents(a.db.products) == Contents(b.db.products)
            && a.db.runs == b.db.runs
            && a.procs == b.procs
  {
    BootHolds(owner, ChangedOnly, products, clock);
    BootHolds(owner, TouchAll, products, clock);
    HistoriesAgree(owner, Boot(products, clock), Boot(products, clock), events);
    var a, b := After(ChangedOnly, Boot(products, clock), events), After(TouchAll, Boot(products, clock), events);
    assert a.db.runs == a.db.(products := map[]).runs == b.db.(products := map[]).runs;
  }
}
