/** A GCP run together with the machine-type synthesis of the code
    (internal/scraper/gcp.go:138-152). */
module ScrapeSynthesis {
  import opened Catalog
  import opened BatchUpsert
  import opened ScrapeMachine
  import opened ScrapeJoint
  import opened ScrapeDiscovery
  import F = ScrapeFanout
  import G = GcpMachineTypes

  /** What the machine-type synthesis is parameterised by; `emit` hashes and formats
      one machine as a product. */
  datatype Tariff = Tariff(
    read: G.Reader,
    cpuPatterns: map<string, string>,
    ramPatterns: map<string, string>,
    machineTypes: map<string, map<string, G.Spec>>,
    emit: G.Machine -> Product)

  ghost predicate Synthesizes(tariff: Tariff, compute: seq<Product>, batch: seq<Product>) {
    exists ms ::
      && G.Outcome(tariff.read, compute, tariff.cpuPatterns, tariff.ramPatterns, tariff.machineTypes, ms)
      && |batch| == |ms| && forall i :: 0 <= i < |ms| ==> batch[i] == tariff.emit(ms[i])
  }

  ghost function SynthesisOf(tariff: Tariff): F.Synthesis {
    (compute, batch) => Synthesizes(tariff, compute, batch)
  }

  /** A GCP run that may clean up has put through the machine types of exactly
      the compute products it fetched. */
  lemma GcpCleanupSynthesizes(owner: string -> string, fixed: map<string, string>,
                              discovered: Option<map<string, string>>, tariff: Tariff, pid: nat, s: Sys,
                              moves: seq<Move>)
    requires CleanupRun(owner, F.Gcp(true, fixed, discovered, SynthesisOf(tariff)), pid, s, moves)
    ensures var x := F.Gcp(true, fixed, discovered, SynthesisOf(tariff));
            var f := JointAfter(ChangedOnly, x, pid, Joint(s, F.Start(x)), moves).f;
            f.extra.Done? && Synthesizes(tariff, F.ComputeProducts(f.services), f.extra.batch)
  {
    CleanupMeansComplete(owner, ChangedOnly, F.Gcp(true, fixed, discovered, SynthesisOf(tariff)), pid, s, moves);
  }

  lemma NoComputeNoMachines(tariff: Tariff)
    requires G.Disjoint(tariff.machineTypes)
    ensures SynthesisOf(tariff)([], [])
  {
    G.NothingFromNothing(tariff.read, tariff.cpuPatterns, tariff.ramPatterns, tariff.machineTypes);
  }
}
