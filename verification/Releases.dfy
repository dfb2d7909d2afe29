/** The shared vocabulary of deployment: slots, signed directory trees, release
    manifests and the health gate.

    A directory is described only by what authentication would conclude about it.
    `Signed(m)` stands for a tree whose manifest, signature and model hash all verify and
    whose manifest is `m`; since `m` carries the model digest, equal manifests mean equal
    model bytes. `Damaged` is a tree that exists but does not authenticate, for instance
    because a copy or a recursive delete stopped halfway. */
module Releases {

  import opened Options

  const MAX_RELEASE_SEQUENCE: int := 0x7FFF_FFFF_FFFF_FFFF

  type Version = string

  datatype Slot = A | B {
    function Other(): Slot { if this == A then B else A }
  }

  /** One value per slot. */
  datatype Pair<T> = Pair(a: T, b: T) {
    function At(s: Slot): T { if s == A then a else b }
    function With(s: Slot, t: T): Pair<T> { if s == A then Pair(t, b) else Pair(a, t) }
  }

  datatype Manifest = Manifest(version: Version, sequence: int, modelBytes: nat, digest: string)

  datatype Tree = Absent | Damaged | Signed(manifest: Manifest)

  /** Published registry entries, by directory name. */
  type Catalogue = map<Version, Tree>

  /** The registry entry `v` authenticates under its own name. */
  predicate Published(reg: Catalogue, v: Version) {
    v in reg && reg[v].Signed? && reg[v].manifest.version == v
  }

  /** `tree` authenticates as `v` and equals the canonical registry release. */
  predicate Verified(reg: Catalogue, tree: Tree, v: Version) {
    Published(reg, v) && tree == reg[v]
  }

  /** `v` is published, and it alone owns `sequence`; every published entry is valid. */
  predicate OwnsSequence(reg: Catalogue, v: Version, sequence: int) {
    && Published(reg, v)
    && reg[v].manifest.sequence == sequence
    && SequenceAvailable(reg, v, sequence)
  }

  predicate SequenceAvailable(reg: Catalogue, v: Version, sequence: int) {
    forall u | u in reg :: Published(reg, u) && (reg[u].manifest.sequence == sequence ==> u == v)
  }

  /** Every entry authenticates, sequences are in range and no two versions share one. */
  ghost predicate Catalogued(reg: Catalogue) {
    && (forall u | u in reg :: Published(reg, u) && 0 <= reg[u].manifest.sequence <= MAX_RELEASE_SEQUENCE)
    && (forall u, v | u in reg && v in reg :: reg[u].manifest.sequence == reg[v].manifest.sequence ==> u == v)
  }

  datatype Metrics = Metrics(accuracy: real, ece: real, p95LatencyMs: real, maxRssMb: real)

  datatype HealthPolicy = HealthPolicy(
    minAccuracy: real, maxAccuracyDrop: real, maxEce: real, maxP95LatencyMs: real, maxRssMb: real)

  /** The gate accepts `candidate`, compared with `baseline` when a model is already active. */
  predicate Healthy(policy: HealthPolicy, candidate: Metrics, baseline: Option<Metrics>) {
    && 0.0 <= candidate.accuracy <= 1.0 && 0.0 <= candidate.ece <= 1.0
    && candidate.p95LatencyMs >= 0.0 && candidate.maxRssMb >= 0.0
    && candidate.accuracy >= policy.minAccuracy
    && (baseline.Some? ==> baseline.value.accuracy - candidate.accuracy <= policy.maxAccuracyDrop)
    && candidate.ece <= policy.maxEce
    && candidate.p95LatencyMs <= policy.maxP95LatencyMs
    && candidate.maxRssMb <= policy.maxRssMb
  }
}
