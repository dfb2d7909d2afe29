/** What a deployment root keeps on disk, one durable step at a time.

    `Disk` is everything that survives a crash. Each `Op` is one durable step: a rename, an
    atomic file write, the loss of part of a tree to a recursive delete, the end of that
    delete, or the advance of the external anchor. A crash is simply the absence of further
    steps, so every prefix of a log of steps is a state a restart may find. */
module DurableState {
  import opened Options
  import opened Releases

  const MAX_ERROR_CHARS := 4096

  datatype Status = Empty | Staged | Active | Failed | RolledBack

  datatype State = State(
    generation: int,
    active: Option<Slot>,
    previous: Option<Slot>,
    versions: Pair<Option<Version>>,
    floor: int,
    status: Status,
    lastError: Option<string>)

  datatype Pending = Pending(
    previousGeneration: int,
    previousFloor: int,
    target: Slot,
    version: Version,
    sequence: int)

  datatype Place = SlotDir(s: Slot) | BackupDir(s: Slot) | CandidateDir(s: Slot)

  /** `passed` is a history variable: the manifests whose staged bytes the gate accepted. */
  datatype Disk = Disk(
    state: Option<State>,
    slots: Pair<Tree>,
    backups: Pair<Tree>,
    candidates: Pair<Tree>,
    journal: Option<Pending>,
    anchor: Option<int>,
    registry: Catalogue,
    passed: set<Manifest>)

  const INITIAL := State(0, None, None, Pair(None, None), -1, Empty, None)

  // ---------------------------------------------------------------- parsing

  /** What the state parser accepts. */
  predicate ValidState(st: State) {
    && st.generation >= 0
    && -1 <= st.floor <= MAX_RELEASE_SEQUENCE
    && (st.active.Some? ==> st.active != st.previous)
    && (st.active.Some? ==> st.versions.At(st.active.value).Some?)
    && (st.previous.Some? ==> st.versions.At(st.previous.value).Some?)
    && (st.active.None? ==> st.versions == Pair(None, None))
    && (st.versions.a.Some? ==> st.active == Some(A) || st.previous == Some(A))
    && (st.versions.b.Some? ==> st.active == Some(B) || st.previous == Some(B))
    && (st.lastError.Some? ==> |st.lastError.value| <= MAX_ERROR_CHARS)
  }

  /** What the journal parser accepts. */
  predicate ValidPending(p: Pending) {
    && p.previousGeneration >= 0
    && p.previousFloor >= -1
    && 0 <= p.sequence <= MAX_RELEASE_SEQUENCE
    && p.sequence > p.previousFloor
  }

  // ---------------------------------------------------------------- transitions of the state

  function Inactive(st: State): Slot {
    if st.active == Some(A) then B else A
  }

  function Max(a: int, b: int): int { if a >= b then a else b }

  function ErrorText(error: string): string {
    if |error| <= MAX_ERROR_CHARS then error else error[..MAX_ERROR_CHARS]
  }

  /** `version` becomes active in `target` and the old active slot becomes previous. */
  function Promoted(st: State, target: Slot, version: Version, floor: int): State {
    State(st.generation + 1, Some(target), st.active, st.versions.With(target, Some(version)), floor, Active, None)
  }

  function GateFailed(st: State, error: string): State {
    st.(generation := st.generation + 1, status := Failed, lastError := Some(ErrorText(error)))
  }

  function RolledBackTo(st: State): State {
    State(st.generation + 1, st.previous, st.active, st.versions, st.floor, RolledBack, None)
  }

  /** One committed change of the deployment: promotion, a failed gate, or rollback. */
  ghost predicate Transition(st: State, st': State) {
    || (exists v: Version, sequence: int :: st' == Promoted(st, Inactive(st), v, Max(st.floor, sequence)))
    || (exists e: string :: st' == GateFailed(st, e))
    || (st.previous.Some? && st' == RolledBackTo(st))
  }

  /** The generation and the active version, as readers see them. */
  function IdentityOf(st: State): (int, Option<Version>) {
    (st.generation, if st.active.Some? then st.versions.At(st.active.value) else None)
  }

  // ---------------------------------------------------------------- the logical state

  function StateOf(d: Disk): State {
    if d.state.Some? then d.state.value else INITIAL
  }

  function Completed(st: State, p: Pending): State {
    Promoted(st, p.target, p.version, p.sequence)
  }

  /** The state a restart settles on when it trusts the anchor value `trusted`. The journal
      is believed exactly when the anchor is ahead of the local floor. */
  function LogicalAt(d: Disk, trusted: Option<int>): State {
    var st := StateOf(d);
    if trusted.Some? && trusted.value > st.floor && d.journal.Some?
    then Completed(st, d.journal.value).(floor := trusted.value)
    else st
  }

  function Logical(d: Disk): State { LogicalAt(d, d.anchor) }

  /** The tree that `st` requires in slot `s`. */
  function Wanted(reg: Catalogue, st: State, s: Slot): Tree {
    var v := st.versions.At(s);
    if v.Some? && v.value in reg then reg[v.value] else Absent
  }

  /** The disk with no residue: `st` is committed and the slots hold what it names. */
  function Settle(d: Disk, st: State): Disk {
    d.(state := Some(st),
       slots := Pair(Wanted(d.registry, st, A), Wanted(d.registry, st, B)),
       backups := Pair(Absent, Absent),
       candidates := Pair(Absent, Absent),
       journal := None)
  }

  predicate Clean(d: Disk) { d == Settle(d, StateOf(d)) }

  // ---------------------------------------------------------------- durable steps

  datatype Op =
    | Scrub(place: Place, gone: bool)
    | Stage(s: Slot, tree: Tree)
    | Displace(s: Slot)
    | Install(s: Slot)
    | Restore(s: Slot)
    | WriteState(st: State)
    | WriteJournal(p: Pending)
    | DropJournal
    | AdvanceAnchor(sequence: int)
    | Qualify(s: Slot, policy: HealthPolicy, metrics: Metrics, baseline: Option<Metrics>)
    | Publish(version: Version, manifest: Manifest)

  function TreeAt(d: Disk, p: Place): Tree {
    match p
    case SlotDir(s) => d.slots.At(s)
    case BackupDir(s) => d.backups.At(s)
    case CandidateDir(s) => d.candidates.At(s)
  }

  function Put(d: Disk, p: Place, t: Tree): Disk {
    match p
    case SlotDir(s) => d.(slots := d.slots.With(s, t))
    case BackupDir(s) => d.(backups := d.backups.With(s, t))
    case CandidateDir(s) => d.(candidates := d.candidates.With(s, t))
  }

  function Apply(d: Disk, op: Op): Disk {
    match op
    case Scrub(p, gone) => Put(d, p, if gone then Absent else Damaged)
    case Stage(s, t) => Put(d, CandidateDir(s), t)
    case Displace(s) => Put(Put(d, BackupDir(s), d.slots.At(s)), SlotDir(s), Absent)
    case Install(s) => Put(Put(d, SlotDir(s), d.candidates.At(s)), CandidateDir(s), Absent)
    case Restore(s) => Put(Put(d, SlotDir(s), d.backups.At(s)), BackupDir(s), Absent)
    case WriteState(st) => d.(state := Some(st))
    case WriteJournal(p) => d.(journal := Some(p))
    case DropJournal => d.(journal := None)
    case AdvanceAnchor(n) => d.(anchor := Some(n))
    case Qualify(s, _, _, _) =>
      if d.candidates.At(s).Signed? then d.(passed := d.passed + {d.candidates.At(s).manifest}) else d
    case Publish(v, m) => d.(registry := d.registry[v := Signed(m)])
  }

  /** The disk after the first `k` steps of a log. */
  function DiskAt(d: Disk, ops: seq<Op>, k: nat): Disk
    requires k <= |ops|
  {
    if k == 0 then d else Apply(DiskAt(d, ops, k - 1), ops[k - 1])
  }

  // ---------------------------------------------------------------- the discipline

  /** Neither the committed nor the logical state serves from slot `s`. */
  predicate Idle(d: Disk, s: Slot) {
    StateOf(d).active != Some(s) && Logical(d).active != Some(s)
  }

  /** A copy of what the logical state needs in `s` is in `tree`, or it needs nothing. */
  predicate Kept(d: Disk, tree: Tree, s: Slot) {
    var v := Logical(d).versions.At(s);
    v.Some? ==> Verified(d.registry, tree, v.value)
  }

  predicate AnchorLevel(d: Disk) {
    d.anchor.Some? ==> d.anchor.value == StateOf(d).floor
  }

  /** A journal written for the current committed state and not yet carried out. */
  predicate Outstanding(d: Disk, p: Pending) {
    && d.journal == Some(p)
    && p.previousGeneration == StateOf(d).generation
    && p.previousFloor == StateOf(d).floor
  }

  predicate CanPromote(d: Disk, v: Version) {
    var t := Inactive(StateOf(d));
    Verified(d.registry, d.slots.At(t), v) && d.registry[v].manifest in d.passed
  }

  predicate IsPromotion(d: Disk, v: Version, st': State) {
    var st := StateOf(d);
    CanPromote(d, v) && st' == Promoted(st, Inactive(st), v, Max(st.floor, d.registry[v].manifest.sequence))
  }

  /** The commits a writer may make once its checks have passed. */
  ghost predicate MayCommit(d: Disk, st': State) {
    var st := StateOf(d);
    && d.state.Some? && d.journal.None? && AnchorLevel(d)
    && (|| (d.anchor.None? && exists v: Version :: IsPromotion(d, v, st'))
        || (exists e: string :: st' == GateFailed(st, e))
        || (&& st.previous.Some? && st.versions.At(st.previous.value).Some?
            && Verified(d.registry, d.slots.At(st.previous.value), st.versions.At(st.previous.value).value)
            && st' == RolledBackTo(st)))
  }

  /** What the code has established before it takes the durable step `op`. The guard speaks
      only of the disk, never of the position in the program that issues the step. */
  ghost predicate Allowed(d: Disk, op: Op) {
    var st := StateOf(d);
    match op
    case Scrub(CandidateDir(_), _) => true
    case Scrub(BackupDir(s), _) => d.backups.At(s) != Absent && Kept(d, d.slots.At(s), s)
    case Scrub(SlotDir(s), _) => d.state.Some? && Idle(d, s) && Kept(d, d.backups.At(s), s)
    case Stage(_, _) => true
    case Displace(s) =>
      && Idle(d, s) && d.backups.At(s) == Absent
      && Logical(d).versions.At(s).Some? && Kept(d, d.slots.At(s), s)
    case Install(s) => d.state.Some? && Idle(d, s) && d.slots.At(s) == Absent
    case Restore(s) => d.slots.At(s) == Absent && d.backups.At(s) != Absent
    case WriteState(st') =>
      || (d.state.None? && st' == INITIAL)
      || (d.state.Some? && st' == Logical(d) && Logical(d) != st)
      || MayCommit(d, st')
    case WriteJournal(p) =>
      && d.state.Some? && d.anchor.Some? && d.journal.None? && AnchorLevel(d)
      && CanPromote(d, p.version)
      && p == Pending(st.generation, st.floor, Inactive(st), p.version, d.registry[p.version].manifest.sequence)
      && p.sequence > st.floor
    case DropJournal => d.journal.Some? && AnchorLevel(d)
    case AdvanceAnchor(n) =>
      && d.anchor.Some? && AnchorLevel(d)
      && exists p :: Outstanding(d, p) && p.sequence == n && Verified(d.registry, d.slots.At(p.target), p.version)
    case Qualify(s, policy, metrics, baseline) =>
      && d.candidates.At(s).Signed? && Healthy(policy, metrics, baseline)
      && (baseline.Some? <==> st.active.Some?)
    case Publish(v, m) =>
      && v !in d.registry && m.version == v && 0 <= m.sequence <= MAX_RELEASE_SEQUENCE
      && SequenceAvailable(d.registry, v, m.sequence)
  }

  /** A log of durable steps each of which was allowed when it was taken. */
  ghost predicate Lawful(d: Disk, ops: seq<Op>) {
    forall k: nat | k < |ops| :: Allowed(DiskAt(d, ops, k), ops[k])
  }

  // ---------------------------------------------------------------- the invariant

  /** The journal, the anchor and the committed state agree on at most one unfinished commit. */
  predicate JournalSound(d: Disk) {
    var st := StateOf(d);
    && (d.anchor.None? ==> d.journal.None?)
    && (d.anchor.Some? ==> st.floor <= d.anchor.value <= MAX_RELEASE_SEQUENCE)
    && (d.journal.None? ==> AnchorLevel(d))
    && (d.journal.Some? ==>
          var p := d.journal.value;
          && d.state.Some? && ValidPending(p)
          && Published(d.registry, p.version) && d.registry[p.version].manifest.sequence == p.sequence
          && (|| (&& Outstanding(d, p) && p.target == Inactive(st)
                  && d.registry[p.version].manifest in d.passed
                  && (AnchorLevel(d) || (d.anchor.value == p.sequence && Verified(d.registry, d.slots.At(p.target), p.version))))
              || (&& AnchorLevel(d) && p.previousGeneration + 1 == st.generation && p.sequence == st.floor
                  && st.active == Some(p.target) && st.versions.At(p.target) == Some(p.version))))
  }

  /** What `st` names in slot `s` is published, within the floor, and passed the gate. */
  predicate Vouched(d: Disk, st: State, s: Slot) {
    var v := st.versions.At(s);
    v.Some? ==>
      && Published(d.registry, v.value) && d.registry[v.value].manifest.sequence <= st.floor
      && d.registry[v.value].manifest in d.passed
  }

  /** Slot `s` can be brought to what the logical state names, and serves it if active. */
  predicate SlotSound(d: Disk, s: Slot) {
    var v := Logical(d).versions.At(s);
    && Vouched(d, StateOf(d), s) && Vouched(d, Logical(d), s)
    && (v.None? ==> d.backups.At(s) == Absent)
    && (v.Some? ==> || Verified(d.registry, d.slots.At(s), v.value)
                    || (Idle(d, s) && Verified(d.registry, d.backups.At(s), v.value)))
  }

  /** Holds of every disk a crash can leave behind. */
  ghost predicate Sound(d: Disk) {
    && Catalogued(d.registry)
    && ValidState(StateOf(d)) && ValidState(Logical(d))
    && (d.state.None? ==> d.slots == Pair(Absent, Absent) && d.backups == Pair(Absent, Absent))
    && JournalSound(d)
    && SlotSound(d, A) && SlotSound(d, B)
  }

  // ---------------------------------------------------------------- when a restart succeeds

  /** The journal records the commit that already produced `st`. */
  predicate JournalCommitted(st: State, p: Pending) {
    && p.sequence == st.floor && p.previousGeneration + 1 == st.generation
    && st.active == Some(p.target) && st.versions.At(p.target) == Some(p.version)
  }

  predicate JournalCurrent(st: State, p: Pending) {
    p.previousFloor == st.floor && p.previousGeneration == st.generation
  }

  /** The reconciliation of journal, local floor and trusted anchor value succeeds. */
  predicate AnchorResolves(d: Disk, trusted: Option<int>) {
    var st := StateOf(d);
    if trusted.None? then d.journal.None?
    else if st.floor > trusted.value then false
    else if st.floor == trusted.value then
      d.journal.Some? ==>
        var p := d.journal.value;
        if JournalCommitted(st, p)
        then OwnsSequence(d.registry, p.version, p.sequence) && Verified(d.registry, d.slots.At(p.target), p.version)
        else JournalCurrent(st, p)
    else
      d.journal.Some? &&
      var p := d.journal.value;
      && JournalCurrent(st, p) && p.sequence == trusted.value
      && OwnsSequence(d.registry, p.version, p.sequence)
      && Verified(d.registry, d.slots.At(p.target), p.version)
      && ValidState(LogicalAt(d, trusted))
  }

  predicate BackupResolves(d: Disk, st: State, s: Slot) {
    d.backups.At(s) != Absent ==>
      var v := st.versions.At(s);
      v.Some? && (Verified(d.registry, d.slots.At(s), v.value) || Verified(d.registry, d.backups.At(s), v.value))
  }

  /** What slot `s` holds once its backup has been dealt with. */
  function Restored(d: Disk, st: State, s: Slot): Tree {
    var v := st.versions.At(s);
    if d.backups.At(s) == Absent || (v.Some? && Verified(d.registry, d.slots.At(s), v.value))
    then d.slots.At(s) else d.backups.At(s)
  }

  predicate SlotResolves(d: Disk, st: State, s: Slot) {
    var v := st.versions.At(s);
    v.Some? ==>
      && (Verified(d.registry, d.slots.At(s), v.value) || Verified(d.registry, d.backups.At(s), v.value))
      && d.registry[v.value].manifest.sequence <= st.floor
  }

  /** Recovery, trusting the anchor value `trusted`, can bring this disk back into service. */
  predicate Startable(d: Disk, trusted: Option<int>) {
    var st := LogicalAt(d, trusted);
    && (d.state.None? ==> d.slots == Pair(Absent, Absent))
    && ValidState(StateOf(d))
    && (d.journal.Some? ==> ValidPending(d.journal.value))
    && AnchorResolves(d, trusted)
    && BackupResolves(d, st, A) && BackupResolves(d, st, B)
    && SlotResolves(d, st, A) && SlotResolves(d, st, B)
  }

  // ---------------------------------------------------------------- deploy decisions

  /** What the health measurement of a deploy yields; `None` is a model that fails to load or run. */
  datatype Gate = Gate(candidate: Option<Metrics>, baseline: Option<Metrics>, error: string)

  /** The faults injected into one deploy: the anchor may raise before or after its effect,
      and a write of `state.json` may fail before its effect. */
  datatype Fault = NoFault | AnchorFailsBefore | AnchorFailsAfter | StateWriteFails

  datatype Outcome = Rejected | GateRefused | Oversize | WriteFailed | Interrupted | Deployed

  /** The version may be deployed at all on the clean disk `d`. */
  predicate Admissible(d: Disk, version: Version, allowDowngrade: bool) {
    && Published(d.registry, version)
    && SequenceAvailable(d.registry, version, d.registry[version].manifest.sequence)
    && (d.registry[version].manifest.sequence <= StateOf(d).floor ==> d.anchor.None? && allowDowngrade)
  }

  function BaselineOf(d: Disk, gate: Gate): Option<Metrics> {
    if StateOf(d).active.Some? then gate.baseline else None
  }

  predicate GateAccepts(d: Disk, policy: HealthPolicy, maxModelBytes: nat, gate: Gate) {
    var st := StateOf(d);
    && gate.candidate.Some?
    && (st.active.Some? ==> gate.baseline.Some? && ActiveFits(d, maxModelBytes))
    && Healthy(policy, gate.candidate.value, BaselineOf(d, gate))
  }

  predicate ActiveFits(d: Disk, maxModelBytes: nat) {
    var st := StateOf(d);
    st.active.Some? && st.versions.At(st.active.value).Some? &&
    var v := st.versions.At(st.active.value).value;
    Verified(d.registry, d.slots.At(st.active.value), v) && d.registry[v].manifest.modelBytes <= maxModelBytes
  }

  /** The committed state a successful deploy of `version` produces. */
  function DeployedState(d: Disk, version: Version): State
    requires Published(d.registry, version)
  {
    var st := StateOf(d);
    Promoted(st, Inactive(st), version, Max(st.floor, d.registry[version].manifest.sequence))
  }

  function DeployOutcome(
    d: Disk, policy: HealthPolicy, maxModelBytes: nat, version: Version, gate: Gate, allowDowngrade: bool, fault: Fault): Outcome
  {
    if !Admissible(d, version, allowDowngrade) then Rejected
    else if !GateAccepts(d, policy, maxModelBytes, gate) then GateRefused
    else if d.registry[version].manifest.modelBytes > maxModelBytes then Oversize
    else if d.anchor.Some? && fault != NoFault then Interrupted
    else if fault == StateWriteFails then WriteFailed
    else Deployed
  }

  /** A clean disk on which a release that passed the gate waits to be installed. */
  predicate ReadyToInstall(d: Disk, version: Version) {
    var t := Inactive(StateOf(d));
    && d.state.Some? && d.journal.None? && AnchorLevel(d)
    && d.backups.At(t) == Absent && d.slots.At(t) == Wanted(d.registry, StateOf(d), t)
    && Published(d.registry, version) && d.candidates.At(t) == d.registry[version]
    && d.registry[version].manifest in d.passed
  }

  /** The release is in the inactive slot and the tree it displaced is in the backup. */
  function Installed(d: Disk, version: Version): Disk {
    var t := Inactive(StateOf(d));
    Put(Put(Put(d, BackupDir(t), d.slots.At(t)), SlotDir(t), d.candidates.At(t)), CandidateDir(t), Absent)
  }

  function JournalFor(d: Disk, version: Version): Pending
    requires Published(d.registry, version)
  {
    var st := StateOf(d);
    Pending(st.generation, st.floor, Inactive(st), version, d.registry[version].manifest.sequence)
  }

  /** The disk between the gate and the installation. */
  function Gated(d: Disk, version: Version): Disk
    requires Published(d.registry, version)
  {
    Put(d, CandidateDir(Inactive(StateOf(d))), d.registry[version])
      .(passed := d.passed + {d.registry[version].manifest})
  }

  /** What a completed deploy leaves: the new state, its trees, the advanced anchor, no residue. */
  function DeployedDisk(d: Disk, version: Version): Disk
    requires Published(d.registry, version)
  {
    var next := DeployedState(d, version);
    Settle(d, next).(anchor := if d.anchor.Some? then Some(next.floor) else None,
                     passed := d.passed + {d.registry[version].manifest})
  }

  /** What each outcome of a deploy from the disk `d` leaves on disk. */
  predicate DeployLeaves(d: Disk, d': Disk, r: Outcome, version: Version, error: string, fault: Fault) {
    match r
    case Rejected => d' == d
    case GateRefused => d' == d.(state := if fault == StateWriteFails then d.state else Some(GateFailed(StateOf(d), error)))
    case Interrupted =>
      && Published(d.registry, version)
      && Logical(d') == (if fault == AnchorFailsBefore then StateOf(d) else DeployedState(d, version))
    case Deployed => Published(d.registry, version) && d' == DeployedDisk(d, version)
    case _ => Published(d.registry, version) && d' == d.(passed := d.passed + {d.registry[version].manifest})
  }
}
