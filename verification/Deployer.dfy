/** The A/B deployment manager. */
module Deployer {
  import opened Options
  import opened Releases
  import opened DurableState
  import opened Storage
  import opened Registries

  class ABDeployer {
    const store: Store
    const policy: HealthPolicy
    const maxModelBytes: nat
    var trustedFloor: Option<int>
    var recoveryRequired: bool

    /** A deployer that last read the anchor as `floor`; it serves only after `Recover`. */
    constructor (store: Store, policy: HealthPolicy, maxModelBytes: nat, floor: Option<int>)
      ensures this.store == store && this.policy == policy && this.maxModelBytes == maxModelBytes
      ensures trustedFloor == floor && !recoveryRequired
    {
      this.store, this.policy, this.maxModelBytes := store, policy, maxModelBytes;
      trustedFloor, recoveryRequired := floor, false;
    }

    // -------------------------------------------------------------- reading

    /** Refuses a state whose floor is not the anchor's. The anchor is only read again when
        the cached value differs or a journal signals a transaction in flight. */
    method ValidateStateAnchor(st: State) returns (ok: bool)
      modifies this`trustedFloor
      ensures old(trustedFloor).None? ==> ok && trustedFloor == old(trustedFloor)
      ensures old(trustedFloor).Some? && recoveryRequired ==> !ok && trustedFloor == old(trustedFloor)
      ensures old(trustedFloor).Some? && !recoveryRequired ==>
        && trustedFloor == (if st.floor != old(trustedFloor).value || store.disk.journal.Some?
                            then store.disk.anchor else old(trustedFloor))
        && (ok <==> trustedFloor == Some(st.floor))
    {
      if trustedFloor.None? {
        return true;
      }
      if recoveryRequired {
        return false;
      }
      if st.floor != trustedFloor.value || store.disk.journal.Some? {
        trustedFloor := store.disk.anchor;
      }
      return trustedFloor == Some(st.floor);
    }

    // -------------------------------------------------------------- recovery

    /** Reconciles the journal with the trusted anchor value, completing the recorded commit
        when the anchor is ahead. */
    method RecoverAnchorCommit() returns (ok: bool)
      requires store.Valid() && store.disk.state.Some?
      modifies store
      ensures store.Valid() && old(store.log) <= store.log
      ensures ok <==> AnchorResolves(old(store.disk), trustedFloor)
      ensures !ok ==> store.disk == old(store.disk)
      ensures ok ==>
        && store.disk == old(store.disk).(state := store.disk.state, journal := store.disk.journal)
        && store.disk.state == Some(LogicalAt(old(store.disk), trustedFloor))
        && LogicalAt(store.disk, trustedFloor) == store.disk.state.value
        && (trustedFloor.Some? ==> store.disk.state.value.floor == trustedFloor.value)
        && (trustedFloor.None? ==> store.disk.journal.None?)
      ensures old(store.lawful) && trustedFloor == store.disk.anchor ==> store.lawful
    {
      var d := store.disk;
      var st := d.state.value;
      if trustedFloor.None? {
        return d.journal.None?;
      }
      var anchor := trustedFloor.value;
      if st.floor > anchor {
        return false;
      }
      if st.floor == anchor {
        if d.journal.Some? {
          var p := d.journal.value;
          if JournalCommitted(st, p) {
            if !OwnsSequence(d.registry, p.version, p.sequence)
               || !Verified(d.registry, d.slots.At(p.target), p.version) {
              return false;
            }
            store.Do(DropJournal);
          } else if !JournalCurrent(st, p) {
            return false;
          }
        }
        return true;
      }
      if d.journal.None? {
        return false;
      }
      var p := d.journal.value;
      if !JournalCurrent(st, p) || p.sequence != anchor {
        return false;
      }
      if !OwnsSequence(d.registry, p.version, anchor) || !Verified(d.registry, d.slots.At(p.target), p.version) {
        return false;
      }
      var recovered := Completed(st, p).(floor := anchor);
      if !ValidState(recovered) {
        return false;
      }
      store.Do(WriteState(recovered));
      store.Do(DropJournal);
      return true;
    }

    /** Drops the backup of slot `s` if the slot is intact, otherwise restores it. */
    method RecoverBackup(s: Slot) returns (ok: bool)
      requires store.Valid() && store.disk.state.Some?
      modifies store
      ensures store.Valid() && old(store.log) <= store.log
      ensures ok <==> BackupResolves(old(store.disk), StateOf(old(store.disk)), s)
      ensures !ok ==> store.disk == old(store.disk)
      ensures ok ==> store.disk == Put(Put(old(store.disk), SlotDir(s), Restored(old(store.disk), StateOf(old(store.disk)), s)),
                                       BackupDir(s), Absent)
      ensures old(store.lawful) && AnchorLevel(old(store.disk)) ==> store.lawful
    {
      var d := store.disk;
      if store.lawful {
        store.IsSound();
      }
      if d.backups.At(s) == Absent {
        return true;
      }
      var expected := d.state.value.versions.At(s);
      if expected.None? {
        return false;
      }
      if Verified(d.registry, d.slots.At(s), expected.value) {
        store.RemoveTree(BackupDir(s));
        return true;
      }
      if !Verified(d.registry, d.backups.At(s), expected.value) {
        return false;
      }
      store.RemoveTree(SlotDir(s));
      store.Do(Restore(s));
      return true;
    }

    /** Removes an uncommitted slot, or authenticates a referenced one. */
    method RecoverSlot(s: Slot) returns (ok: bool)
      requires store.Valid() && store.disk.state.Some? && ValidState(store.disk.state.value)
      requires store.disk.backups.At(s) == Absent
      modifies store
      ensures store.Valid() && old(store.log) <= store.log
      ensures ok <==> SlotResolves(old(store.disk), StateOf(old(store.disk)), s)
      ensures ok ==> store.disk == Put(old(store.disk), SlotDir(s), Wanted(store.disk.registry, StateOf(store.disk), s))
      ensures !ok ==> store.disk == old(store.disk)
      ensures old(store.lawful) && AnchorLevel(old(store.disk)) ==> store.lawful
    {
      var d := store.disk;
      var version := d.state.value.versions.At(s);
      if version.None? {
        store.RemoveTree(SlotDir(s));
        return true;
      }
      return && Verified(d.registry, d.slots.At(s), version.value)
             && d.registry[version.value].manifest.sequence <= d.state.value.floor;
    }

    method RecoverBackups() returns (ok: bool)
      requires store.Valid() && store.disk.state.Some?
      modifies store
      ensures store.Valid() && old(store.log) <= store.log
      ensures var d, st := old(store.disk), StateOf(old(store.disk));
              && (ok <==> BackupResolves(d, st, A) && BackupResolves(d, st, B))
              && (ok ==> store.disk == d.(slots := Pair(Restored(d, st, A), Restored(d, st, B)), backups := Pair(Absent, Absent)))
      ensures store.disk == old(store.disk).(slots := store.disk.slots, backups := store.disk.backups)
      ensures old(store.lawful) && AnchorLevel(old(store.disk)) ==> store.lawful
    {
      var first: Slot := *;
      ok := RecoverBackup(first);
      if ok {
        ok := RecoverBackup(first.Other());
      }
    }

    /** Removes candidates and uncommitted slots and authenticates the referenced ones. */
    method RecoverSlots() returns (ok: bool)
      requires store.Valid() && store.disk.state.Some? && ValidState(store.disk.state.value)
      requires store.disk.backups == Pair(Absent, Absent)
      modifies store
      ensures store.Valid() && old(store.log) <= store.log
      ensures var d, st := old(store.disk), StateOf(old(store.disk));
              && (ok <==> SlotResolves(d, st, A) && SlotResolves(d, st, B))
              && (ok ==> store.disk == Settle(d, st).(journal := d.journal))
      ensures store.disk == old(store.disk).(slots := store.disk.slots, candidates := store.disk.candidates)
      ensures old(store.lawful) && AnchorLevel(old(store.disk)) ==> store.lawful
    {
      store.RemoveTree(CandidateDir(A));
      store.RemoveTree(CandidateDir(B));
      ok := RecoverSlot(A);
      if ok {
        ok := RecoverSlot(B);
      }
    }

    /** Brings every directory in line with the committed state, then discards the journal. */
    method RecoverTrees() returns (ok: bool)
      requires store.Valid() && store.disk.state.Some? && ValidState(store.disk.state.value)
      modifies store
      ensures store.Valid() && old(store.log) <= store.log
      ensures var d, st := old(store.disk), StateOf(old(store.disk));
              && (ok <==> && BackupResolves(d, st, A) && BackupResolves(d, st, B)
                          && SlotResolves(d, st, A) && SlotResolves(d, st, B))
              && (ok ==> store.disk == Settle(d, st))
      ensures store.disk.state == old(store.disk).state && store.disk.anchor == old(store.disk).anchor
      ensures !ok ==> store.disk.journal == old(store.disk).journal
      ensures old(store.lawful) && AnchorLevel(old(store.disk)) ==> store.lawful
    {
      ok := RecoverBackups();
      if !ok {
        return;
      }
      ok := RecoverSlots();
      if ok && store.disk.journal.Some? {
        store.Do(DropJournal);
      }
    }

    /** Everything after the state and journal files have been found and parsed. */
    method RecoverFrom() returns (ok: bool)
      requires store.Valid() && !recoveryRequired && store.disk.state.Some? && ValidState(store.disk.state.value)
      modifies store, this`trustedFloor
      ensures store.Valid() && old(store.log) <= store.log && trustedFloor == old(trustedFloor)
      ensures var d, st := old(store.disk), LogicalAt(old(store.disk), trustedFloor);
              && (ok <==> && AnchorResolves(d, trustedFloor)
                          && BackupResolves(d, st, A) && BackupResolves(d, st, B)
                          && SlotResolves(d, st, A) && SlotResolves(d, st, B))
              && (ok ==> store.disk == Settle(d, st))
      ensures LogicalAt(store.disk, trustedFloor) == LogicalAt(old(store.disk), trustedFloor)
      ensures old(store.lawful) && trustedFloor == store.disk.anchor ==> store.lawful
    {
      ok := RecoverAnchorCommit();
      if ok {
        ok := RecoverTrees();
      }
      if ok {
        ok := ValidateStateAnchor(store.disk.state.value);
      }
    }

    /** Startup recovery. It succeeds on exactly the disks that are `Startable` under the
        anchor value this process trusts, and then leaves the logical state and no residue;
        even when it fails it never changes the logical state. */
    method Recover() returns (ok: bool)
      requires store.Valid() && !recoveryRequired
      modifies store, this`trustedFloor
      ensures store.Valid() && old(store.log) <= store.log && trustedFloor == old(trustedFloor)
      ensures ok <==> Startable(old(store.disk), trustedFloor)
      ensures ok ==> store.disk == Settle(old(store.disk), LogicalAt(old(store.disk), trustedFloor))
      ensures LogicalAt(store.disk, trustedFloor) == LogicalAt(old(store.disk), trustedFloor)
      ensures old(store.lawful) && trustedFloor == store.disk.anchor ==> store.lawful
    {
      if store.disk.state.None? {
        if store.disk.slots != Pair(Absent, Absent) {
          return false;
        }
        store.Do(WriteState(INITIAL));
      }
      if !ValidState(store.disk.state.value) {
        return false;
      }
      if store.disk.journal.Some? && !ValidPending(store.disk.journal.value) {
        return false;
      }
      ok := RecoverFrom();
    }

    // -------------------------------------------------------------- deploy

    /** Advances the external anchor, which may fail on either side of its effect. */
    method AdvanceAnchor(sequence: int, fault: Fault) returns (ok: bool)
      requires store.Valid() && store.disk.anchor.Some? && 0 <= sequence <= MAX_RELEASE_SEQUENCE
      modifies store, this`trustedFloor
      ensures store.Valid() && old(store.log) <= store.log
      ensures ok <==> fault != AnchorFailsBefore && fault != AnchorFailsAfter && sequence >= old(store.disk).anchor.value
      ensures store.disk == if fault == AnchorFailsBefore || sequence < old(store.disk).anchor.value then old(store.disk)
                            else Apply(old(store.disk), Op.AdvanceAnchor(sequence))
      ensures trustedFloor == if ok then Some(sequence) else old(trustedFloor)
      ensures old(store.lawful) && Allowed(old(store.disk), Op.AdvanceAnchor(sequence)) ==> store.lawful
    {
      if fault == AnchorFailsBefore {
        return false;
      }
      var anchor := new RollbackAnchor(store);
      ok := anchor.AdvanceTo(sequence);
      if !ok || fault == AnchorFailsAfter {
        return false;
      }
      trustedFloor := Some(sequence);
      return true;
    }

    /** The checks made before anything is touched, whatever residue is on disk. */
    method Admit(version: Version, allowDowngrade: bool) returns (ok: bool)
      requires store.Valid() && store.lawful && store.disk.state.Some?
      requires trustedFloor.Some? <==> store.disk.anchor.Some?
      modifies this`trustedFloor
      ensures ok <==> && Admissible(store.disk, version, allowDowngrade) && AnchorLevel(store.disk)
                      && !(recoveryRequired && store.disk.anchor.Some?)
      ensures trustedFloor.Some? <==> store.disk.anchor.Some?
    {
      store.IsSound();
      var d := store.disk;
      if !Published(d.registry, version) {
        return false;
      }
      var sequence := d.registry[version].manifest.sequence;
      var registry := new Registry(store);
      var unique := registry.AssertSequenceIdentity(version, sequence);
      if !unique {
        return false;
      }
      var st := d.state.value;
      var readable := ValidateStateAnchor(st);
      if !readable {
        return false;
      }
      if trustedFloor.Some? && sequence <= st.floor {
        return false;
      }
      return sequence > st.floor || allowDowngrade;
    }

    /** Copies the release into the candidate directory of the inactive slot. */
    method StageCandidate(version: Version, t: Slot)
      requires store.Valid() && store.lawful && Published(store.disk.registry, version)
      modifies store
      ensures store.Valid() && store.lawful && old(store.log) <= store.log
      ensures store.disk == Put(old(store.disk), CandidateDir(t), old(store.disk).registry[version])
    {
      var release := store.disk.registry[version];
      store.RemoveTree(CandidateDir(t));
      store.Do(Stage(t, Damaged));
      store.Do(Stage(t, release));
    }

    /** Notes, in the history only, that the gate accepted the bytes staged for slot `t`. */
    method RecordPass(t: Slot, metrics: Metrics, baseline: Option<Metrics>)
      requires store.Valid() && store.lawful && store.disk.candidates.At(t).Signed? && Healthy(policy, metrics, baseline)
      requires baseline.Some? <==> StateOf(store.disk).active.Some?
      modifies store
      ensures store.Valid() && store.lawful && old(store.log) <= store.log
      ensures store.disk == old(store.disk).(passed := old(store.disk).passed + {old(store.disk).candidates.At(t).manifest})
    {
      store.Do(Qualify(t, policy, metrics, baseline));
    }

    /** Removes the candidate and records the failure in the state. */
    method RecordFailure(t: Slot, error: string, fault: Fault)
      requires store.Valid() && store.lawful
      requires store.disk.state.Some? && store.disk.journal.None? && AnchorLevel(store.disk)
      modifies store
      ensures store.Valid() && store.lawful && old(store.log) <= store.log
      ensures store.disk == Put(old(store.disk), CandidateDir(t), Absent).(state :=
                if fault == StateWriteFails then old(store.disk).state else Some(GateFailed(StateOf(old(store.disk)), error)))
    {
      store.RemoveTree(CandidateDir(t));
      if fault != StateWriteFails {
        var failed := GateFailed(store.disk.state.value, error);
        assert MayCommit(store.disk, failed);
        store.Do(WriteState(failed));
      }
    }

    /** Authenticates the staged candidate and the active model and applies the gate. */
    method Measure(version: Version, gate: Gate) returns (ok: bool)
      requires store.disk.state.Some?
      requires Verified(store.disk.registry, store.disk.candidates.At(Inactive(StateOf(store.disk))), version)
      ensures ok <==> GateAccepts(store.disk, policy, maxModelBytes, gate)
      ensures ok ==> gate.candidate.Some? && Healthy(policy, gate.candidate.value, BaselineOf(store.disk, gate))
      ensures ok ==> (BaselineOf(store.disk, gate).Some? <==> StateOf(store.disk).active.Some?)
    {
      var st := store.disk.state.value;
      if !Verified(store.disk.registry, store.disk.candidates.At(Inactive(st)), version) {
        return false;
      }
      if gate.candidate.None? {
        return false;
      }
      if st.active.Some? && (!ActiveFits(store.disk, maxModelBytes) || gate.baseline.None?) {
        return false;
      }
      return Healthy(policy, gate.candidate.value, BaselineOf(store.disk, gate));
    }

    lemma GateFrame(d: Disk, d': Disk, gate: Gate)
      requires d'.state == d.state && d'.slots == d.slots && d'.registry == d.registry
      ensures GateAccepts(d', policy, maxModelBytes, gate) == GateAccepts(d, policy, maxModelBytes, gate)
    {
    }

    /** Stages the release and puts it through the health gate. A refusal leaves no
        candidate and is recorded in the state. */
    method StageAndGate(version: Version, gate: Gate, fault: Fault) returns (ok: bool)
      requires store.Valid() && store.lawful && Published(store.disk.registry, version)
      requires store.disk.state.Some? && store.disk.journal.None? && AnchorLevel(store.disk)
      modifies store
      ensures store.Valid() && store.lawful && old(store.log) <= store.log
      ensures ok <==> GateAccepts(old(store.disk), policy, maxModelBytes, gate)
      ensures var d := old(store.disk);
              var t := CandidateDir(Inactive(StateOf(d)));
              store.disk ==
                if ok then Put(d, t, d.registry[version]).(passed := d.passed + {d.registry[version].manifest})
                else Put(d, t, Absent).(state := if fault == StateWriteFails then d.state else Some(GateFailed(StateOf(d), gate.error)))
    {
      ghost var d := store.disk;
      var inactive := Inactive(store.disk.state.value);
      StageCandidate(version, inactive);
      ghost var staged := store.disk;
      GateFrame(d, staged, gate);
      ok := Measure(version, gate);
      if ok {
        RecordPass(inactive, gate.candidate.value, BaselineOf(store.disk, gate));
      } else {
        RecordFailure(inactive, gate.error, fault);
        assert Put(staged, CandidateDir(inactive), Absent) == Put(d, CandidateDir(inactive), Absent);
      }
    }

    static lemma MoveAsideIsAllowed(d: Disk, t: Slot)
      requires Sound(d) && d.state.Some? && Logical(d) == StateOf(d)
      requires t == Inactive(StateOf(d)) && d.slots.At(t) == Wanted(d.registry, StateOf(d), t)
      ensures var spared := Put(d, BackupDir(t), Absent);
              && spared.slots == d.slots
              && (TreeAt(d, BackupDir(t)) == Absent || Allowed(d, Scrub(BackupDir(t), false)))
              && var aside := Put(Put(d, BackupDir(t), d.slots.At(t)), SlotDir(t), Absent);
                 if spared.slots.At(t) == Absent then spared == aside
                 else Allowed(spared, Displace(t)) && Apply(spared, Displace(t)) == aside
    {
    }

    /** Deletes an old backup and moves the old tree of the inactive slot into its place. */
    method MoveAside(t: Slot)
      requires store.Valid() && store.lawful && store.disk.state.Some?
      requires store.disk.slots.At(t) == Wanted(store.disk.registry, StateOf(store.disk), t)
      requires t == Inactive(StateOf(store.disk)) && Logical(store.disk) == StateOf(store.disk)
      modifies store
      ensures store.Valid() && store.lawful && old(store.log) <= store.log
      ensures store.disk == Put(Put(old(store.disk), BackupDir(t), old(store.disk).slots.At(t)), SlotDir(t), Absent)
    {
      hide Allowed, Sound, Lawful, Apply, Put;
      store.IsSound();
      MoveAsideIsAllowed(store.disk, t);
      store.RemoveTree(BackupDir(t));
      if store.disk.slots.At(t) != Absent {
        store.Do(Displace(t));
      }
    }

    /** Moves the old tree of the inactive slot aside and the candidate into its place. */
    method Install(version: Version)
      requires store.Valid() && store.lawful && ReadyToInstall(store.disk, version)
      modifies store
      ensures store.Valid() && store.lawful && old(store.log) <= store.log
      ensures store.disk == Installed(old(store.disk), version)
    {
      var t := Inactive(store.disk.state.value);
      MoveAside(t);
      store.Do(Op.Install(t));
    }

    /** Taking the release out again, and putting the displaced tree back if there was one. */
    static lemma UninstallIsAllowed(d: Disk, version: Version)
      requires ReadyToInstall(d, version) && Sound(Installed(d, version))
      ensures var t, installed := Inactive(StateOf(d)), Installed(d, version);
              var emptied := Put(installed, SlotDir(t), Absent);
              && installed.state == d.state && emptied.backups == installed.backups
              && (TreeAt(installed, SlotDir(t)) == Absent || Allowed(installed, Scrub(SlotDir(t), false)))
              && (if emptied.backups.At(t) == Absent then emptied == Put(d, CandidateDir(t), Absent)
                  else Allowed(emptied, Restore(t)) && Apply(emptied, Restore(t)) == Put(d, CandidateDir(t), Absent))
    {
    }

    /** Undoes `Install` after a failure before the commit point. */
    method Uninstall(ghost d: Disk, version: Version)
      requires store.Valid() && store.lawful && ReadyToInstall(d, version) && store.disk == Installed(d, version)
      modifies store
      ensures store.Valid() && store.lawful && old(store.log) <= store.log
      ensures store.disk == Put(d, CandidateDir(Inactive(StateOf(d))), Absent)
    {
      hide Allowed, Sound, Lawful, Apply, Put, Installed;
      store.IsSound();
      UninstallIsAllowed(d, version);
      var t := Inactive(store.disk.state.value);
      store.RemoveTree(SlotDir(t));
      if store.disk.backups.At(t) != Absent {
        store.Do(Restore(t));
      }
    }

    /** Installs the release and re-authenticates it in place; an oversize one is taken out again. */
    method InstallChecked(version: Version) returns (ok: bool)
      requires store.Valid() && store.lawful && ReadyToInstall(store.disk, version)
      modifies store
      ensures store.Valid() && store.lawful && old(store.log) <= store.log
      ensures ok <==> old(store.disk).registry[version].manifest.modelBytes <= maxModelBytes
      ensures store.disk == if ok then Installed(old(store.disk), version)
                            else Put(old(store.disk), CandidateDir(Inactive(StateOf(old(store.disk)))), Absent)
    {
      ghost var ready := store.disk;
      var t := Inactive(store.disk.state.value);
      Install(version);
      ok := && Verified(store.disk.registry, store.disk.slots.At(t), version)
            && store.disk.registry[version].manifest.modelBytes <= maxModelBytes;
      if !ok {
        Uninstall(ready, version);
      }
    }

    /** Without an anchor the rename of `state.json` commits. */
    method CommitPlain(version: Version, fault: Fault) returns (ok: bool)
      requires store.Valid() && store.lawful && store.disk.anchor.None?
      requires store.disk.state.Some? && store.disk.journal.None? && CanPromote(store.disk, version)
      modifies store
      ensures store.Valid() && store.lawful && old(store.log) <= store.log
      ensures ok <==> fault != StateWriteFails
      ensures store.disk == if ok then old(store.disk).(state := Some(DeployedState(old(store.disk), version))) else old(store.disk)
    {
      if fault == StateWriteFails {
        return false;
      }
      var next := DeployedState(store.disk, version);
      assert IsPromotion(store.disk, version, next) && MayCommit(store.disk, next);
      store.Do(WriteState(next));
      return true;
    }

    /** Records the exact transition before the irreversible update of the anchor. */
    method WritePending(version: Version)
      requires store.Valid() && store.lawful && store.disk.anchor.Some?
      requires store.disk.state.Some? && store.disk.journal.None? && AnchorLevel(store.disk) && CanPromote(store.disk, version)
      requires store.disk.registry[version].manifest.sequence > StateOf(store.disk).floor
      modifies store
      ensures store.Valid() && store.lawful && old(store.log) <= store.log
      ensures store.disk == old(store.disk).(journal := Some(JournalFor(old(store.disk), version)))
    {
      store.Do(WriteJournal(JournalFor(store.disk, version)));
    }

    static lemma JournalPermitsAdvance(d: Disk, version: Version)
      requires d.state.Some? && d.anchor.Some? && AnchorLevel(d) && CanPromote(d, version)
      ensures Allowed(d.(journal := Some(JournalFor(d, version))), Op.AdvanceAnchor(d.registry[version].manifest.sequence))
    {
      assert Outstanding(d.(journal := Some(JournalFor(d, version))), JournalFor(d, version));
    }

    /** Journals the transition and advances the anchor; from here a failure poisons this process. */
    method OpenTransaction(version: Version, fault: Fault) returns (ok: bool)
      requires store.Valid() && store.lawful && store.disk.anchor.Some? && trustedFloor.Some?
      requires store.disk.state.Some? && store.disk.journal.None? && AnchorLevel(store.disk) && CanPromote(store.disk, version)
      requires store.disk.registry[version].manifest.sequence > StateOf(store.disk).floor
      modifies store, this`trustedFloor, this`recoveryRequired
      ensures store.Valid() && store.lawful && old(store.log) <= store.log && recoveryRequired && trustedFloor.Some?
      ensures ok <==> fault != AnchorFailsBefore && fault != AnchorFailsAfter
      ensures var d := old(store.disk);
              var advanced := Some(d.registry[version].manifest.sequence);
              && store.disk == d.(journal := Some(JournalFor(d, version)),
                                  anchor := if fault == AnchorFailsBefore then d.anchor else advanced)
              && (ok ==> trustedFloor == advanced)
    {
      var sequence := store.disk.registry[version].manifest.sequence;
      store.SequenceInRange(version);
      JournalPermitsAdvance(store.disk, version);
      WritePending(version);
      recoveryRequired := true;
      ok := AdvanceAnchor(sequence, fault);
    }

    /** With an anchor the advance commits; the journal lets a restart finish the state write. */
    method CommitAnchored(version: Version, fault: Fault) returns (ok: bool)
      requires store.Valid() && store.lawful && store.disk.anchor.Some? && trustedFloor.Some?
      requires store.disk.state.Some? && store.disk.journal.None? && AnchorLevel(store.disk) && CanPromote(store.disk, version)
      requires store.disk.registry[version].manifest.sequence > StateOf(store.disk).floor
      modifies store, this`trustedFloor, this`recoveryRequired
      ensures store.Valid() && store.lawful && old(store.log) <= store.log
      ensures ok <==> fault == NoFault
      ensures recoveryRequired == !ok && trustedFloor.Some? && store.disk.anchor.Some? && store.disk.state.Some?
      ensures var d, next := old(store.disk), DeployedState(old(store.disk), version);
              && (ok ==> store.disk == d.(state := Some(next), anchor := Some(next.floor)))
              && (!ok ==> Logical(store.disk) == if fault == AnchorFailsBefore then StateOf(d) else next)
    {
      var next := DeployedState(store.disk, version);
      ok := OpenTransaction(version, fault);
      if ok && fault == StateWriteFails {
        return false;
      }
      if ok {
        FinishAnchored(next);
      }
    }

    /** Writes the state that the advanced anchor already decided and discards the journal. */
    method FinishAnchored(next: State)
      requires store.Valid() && store.lawful && store.disk.state.Some? && store.disk.journal.Some?
      requires next == Logical(store.disk) != StateOf(store.disk) && store.disk.anchor == Some(next.floor)
      modifies store, this`recoveryRequired
      ensures store.Valid() && store.lawful && old(store.log) <= store.log && !recoveryRequired
      ensures store.disk == old(store.disk).(state := Some(next), journal := None)
    {
      store.Do(WriteState(next));
      recoveryRequired := false;
      store.Do(DropJournal);
    }

    /** The commit, with or without an anchor. */
    method Commit(version: Version, fault: Fault) returns (ok: bool)
      requires store.Valid() && store.lawful && !recoveryRequired && (trustedFloor.Some? <==> store.disk.anchor.Some?)
      requires store.disk.state.Some? && store.disk.journal.None? && AnchorLevel(store.disk) && CanPromote(store.disk, version)
      requires store.disk.anchor.Some? ==> store.disk.registry[version].manifest.sequence > StateOf(store.disk).floor
      modifies store, this`trustedFloor, this`recoveryRequired
      ensures store.Valid() && store.lawful && old(store.log) <= store.log
      ensures ok <==> fault == NoFault || (old(store.disk).anchor.None? && fault != StateWriteFails)
      ensures recoveryRequired <==> !ok && old(store.disk).anchor.Some?
      ensures trustedFloor.Some? <==> store.disk.anchor.Some?
      ensures !ok && old(store.disk).anchor.Some? ==> store.disk.state.Some? && store.disk.anchor.Some?
      ensures var d, next := old(store.disk), DeployedState(old(store.disk), version);
              && (ok ==> store.disk == d.(state := Some(next), anchor := if d.anchor.Some? then Some(next.floor) else None))
              && (!ok && d.anchor.None? ==> store.disk == d)
              && (!ok && d.anchor.Some? ==> Logical(store.disk) == if fault == AnchorFailsBefore then StateOf(d) else next)
    {
      if store.disk.anchor.Some? {
        ok := CommitAnchored(version, fault);
      } else {
        ok := CommitPlain(version, fault);
      }
    }

    static lemma GatedIsReady(d: Disk, version: Version)
      requires Clean(d) && AnchorLevel(d) && Published(d.registry, version)
      ensures ReadyToInstall(Gated(d, version), version)
      ensures CanPromote(Installed(Gated(d, version), version), version)
      ensures Put(Gated(d, version), CandidateDir(Inactive(StateOf(d))), Absent)
                == d.(passed := d.passed + {d.registry[version].manifest})
    {
    }

    /** After the commit the backup may go, and what is left is the settled new state. */
    static lemma SettledAfterCommit(d: Disk, version: Version)
      requires Clean(d) && ValidState(StateOf(d)) && Published(d.registry, version)
      ensures var t, next := Inactive(StateOf(d)), DeployedState(d, version);
              var anchor := if d.anchor.Some? then Some(next.floor) else None;
              var committed := Installed(Gated(d, version), version).(state := Some(next), anchor := anchor);
              && Put(committed, BackupDir(t), Absent) == DeployedDisk(d, version)
              && (TreeAt(committed, BackupDir(t)) == Absent || Allowed(committed, Scrub(BackupDir(t), false)))
    {
    }

    static lemma CleanIsLevel(d: Disk)
      requires Sound(d) && Clean(d)
      ensures AnchorLevel(d) && ValidState(StateOf(d)) && Logical(d) == StateOf(d) && d.state.Some? && d.journal.None?
    {
    }

    static lemma FailureIsClean(d: Disk, t: Slot, error: string)
      requires Clean(d)
      ensures Put(d, CandidateDir(t), Absent) == d
      ensures Clean(d.(state := Some(GateFailed(StateOf(d), error))))
    {
    }

    /** Settled once more, these disks do not change. */
    static lemma OutcomesAreClean(d: Disk, version: Version)
      requires Clean(d) && Published(d.registry, version)
      ensures Clean(DeployedDisk(d, version))
      ensures Clean(d.(passed := d.passed + {d.registry[version].manifest}))
    {
    }

    /** Everything after the gate. */
    method Promote(ghost d: Disk, version: Version, fault: Fault) returns (r: Outcome)
      requires store.Valid() && store.lawful && Clean(d) && ValidState(StateOf(d)) && AnchorLevel(d) && Published(d.registry, version)
      requires store.disk == Gated(d, version)
      requires d.anchor.Some? ==> d.registry[version].manifest.sequence > StateOf(d).floor
      requires (trustedFloor.Some? <==> d.anchor.Some?) && !recoveryRequired
      modifies store, this`trustedFloor, this`recoveryRequired
      ensures store.Valid() && store.lawful && old(store.log) <= store.log
      ensures r == if d.registry[version].manifest.modelBytes > maxModelBytes then Oversize
                   else if d.anchor.Some? && fault != NoFault then Interrupted
                   else if fault == StateWriteFails then WriteFailed
                   else Deployed
      ensures DeployLeaves(d, store.disk, r, version, "", fault)
      ensures (trustedFloor.Some? <==> store.disk.anchor.Some?) && (recoveryRequired <==> r.Interrupted?)
      ensures store.disk.state.Some? && (r.Interrupted? ==> store.disk.anchor.Some?)
      ensures !r.Interrupted? ==> Clean(store.disk)
    {
      hide Allowed, Lawful, Sound, JournalFor;
      ghost var ready := store.disk;
      var t := Inactive(store.disk.state.value);
      OutcomesAreClean(d, version);
      GatedIsReady(d, version);
      var fits := InstallChecked(version);
      if !fits {
        return Oversize;
      }
      var committed := Commit(version, fault);
      if committed {
        SettledAfterCommit(d, version);
        store.RemoveTree(BackupDir(t));
        return Deployed;
      }
      if recoveryRequired {
        return Interrupted;
      }
      Uninstall(ready, version);
      return WriteFailed;
    }

    /** One deploy under the writer lock, from a clean disk or by a process that must recover
        first and is refused. The outcome is a function of the request, the gate's measurements
        and the injected fault. A refused deploy leaves the disk untouched or records the
        failure; a completed one leaves exactly the new state and no residue; an interrupted
        one poisons this process and leaves a disk on which a restart finds the old state
        before the anchor's advance and the new state after it. */
    method DeployLocked(version: Version, gate: Gate, allowDowngrade: bool, fault: Fault) returns (r: Outcome)
      requires store.Valid() && store.lawful && store.disk.state.Some? && (Clean(store.disk) || recoveryRequired)
      requires (trustedFloor.Some? <==> store.disk.anchor.Some?) && (recoveryRequired ==> trustedFloor.Some?)
      modifies store, this`trustedFloor, this`recoveryRequired
      ensures store.Valid() && store.lawful && old(store.log) <= store.log
      ensures r == if old(recoveryRequired) then Rejected
                   else DeployOutcome(old(store.disk), policy, maxModelBytes, version, gate, allowDowngrade, fault)
      ensures r.Rejected? ==> store.log == old(store.log)
      ensures DeployLeaves(old(store.disk), store.disk, r, version, gate.error, fault)
      ensures (trustedFloor.Some? <==> store.disk.anchor.Some?) && (recoveryRequired ==> trustedFloor.Some?)
      ensures recoveryRequired <==> old(recoveryRequired) || r.Interrupted?
      ensures store.disk.state.Some? && (Clean(store.disk) || recoveryRequired)
    {
      hide Allowed, Lawful, Sound, Settle, GateAccepts, AnchorLevel, Healthy, ValidState, Put, GateFailed;
      ghost var d := store.disk;
      store.IsSound();
      if Clean(d) {
        CleanIsLevel(d);
        FailureIsClean(d, Inactive(StateOf(d)), gate.error);
      }
      var admitted := Admit(version, allowDowngrade);
      if !admitted {
        return Rejected;
      }
      var accepted := StageAndGate(version, gate, fault);
      if !accepted {
        return GateRefused;
      }
      r := Promote(d, version, fault);
    }

    /** A deploy is atomic under crashes: wherever among its durable steps the process dies, a
        restart succeeds and serves exactly the state before the deploy or the state after it. */
    method Deploy(version: Version, gate: Gate, allowDowngrade: bool, fault: Fault) returns (r: Outcome)
      requires store.Valid() && store.lawful && store.disk.state.Some? && (Clean(store.disk) || recoveryRequired)
      requires (trustedFloor.Some? <==> store.disk.anchor.Some?) && (recoveryRequired ==> trustedFloor.Some?)
      modifies store, this`trustedFloor, this`recoveryRequired
      ensures store.Valid() && store.lawful && store.AtomicSince(old(store.log))
      ensures r == if old(recoveryRequired) then Rejected
                   else DeployOutcome(old(store.disk), policy, maxModelBytes, version, gate, allowDowngrade, fault)
      ensures DeployLeaves(old(store.disk), store.disk, r, version, gate.error, fault)
      ensures (trustedFloor.Some? <==> store.disk.anchor.Some?) && (recoveryRequired ==> trustedFloor.Some?)
      ensures recoveryRequired <==> old(recoveryRequired) || r.Interrupted?
      ensures store.disk.state.Some? && (Clean(store.disk) || recoveryRequired)
    {
      ghost var d, began := store.disk, store.log;
      r := DeployLocked(version, gate, allowDowngrade, fault);
      assert Logical(store.disk).generation <= Logical(d).generation + 1;
      store.CommitsOnce(began);
    }

    // -------------------------------------------------------------- rollback

    /** Swaps the active and the previous slot. `loads` says whether the previous model still
        parses; `refused` is a raised error. The floor is kept, so a rollback never reopens
        the way for an older release. */
    method Rollback(loads: bool, fault: Fault) returns (done: bool, refused: bool)
      requires store.Valid() && store.lawful && store.disk.state.Some? && (Clean(store.disk) || recoveryRequired)
      requires (trustedFloor.Some? <==> store.disk.anchor.Some?) && (recoveryRequired ==> trustedFloor.Some?)
      modifies store, this`trustedFloor
      ensures store.Valid() && store.lawful && old(store.log) <= store.log
      ensures (trustedFloor.Some? <==> store.disk.anchor.Some?) && (recoveryRequired ==> trustedFloor.Some?)
      ensures store.disk.state.Some? && (Clean(store.disk) || recoveryRequired)
      ensures var st := StateOf(old(store.disk));
              && refused == (recoveryRequired
                             || (st.previous.Some? && (!loads || fault == StateWriteFails)))
              && done == (!refused && st.previous.Some?)
              && store.disk == if done then old(store.disk).(state := Some(RolledBackTo(st))) else old(store.disk)
    {
      store.IsSound();
      var st := store.disk.state.value;
      var readable := ValidateStateAnchor(st);
      if !readable {
        return false, true;
      }
      if st.previous.None? || st.versions.At(st.previous.value).None? {
        return false, false;
      }
      var version := st.versions.At(st.previous.value).value;
      if !Verified(store.disk.registry, store.disk.slots.At(st.previous.value), version) || !loads {
        return false, true;
      }
      if fault == StateWriteFails {
        return false, true;
      }
      assert MayCommit(store.disk, RolledBackTo(st));
      store.Do(WriteState(RolledBackTo(st)));
      return true, false;
    }

    // -------------------------------------------------------------- serving

    /** The active identity as read without any lock: the state file is read first and
        checked against the anchor afterwards, with any steps of others in between. What it
        returns is the committed state at the instant of the file read; `None` is a refusal. */
    method ActiveIdentity() returns (r: Option<(int, Option<Version>)>)
      requires store.Valid() && store.lawful && (trustedFloor.Some? <==> store.disk.anchor.Some?)
      modifies store, this`trustedFloor
      ensures store.Valid() && store.lawful && old(store.log) <= store.log
      ensures trustedFloor.Some? <==> store.disk.anchor.Some?
      ensures r.Some? ==> r.value == IdentityOf(StateOf(old(store.disk)))
      ensures r.Some? && store.disk.anchor.Some? ==> trustedFloor == Some(StateOf(old(store.disk)).floor)
      ensures recoveryRequired && store.disk.anchor.Some? ==> r.None?
    {
      var st := StateOf(store.disk);
      store.Others();
      var readable := ValidateStateAnchor(st);
      if !readable {
        return None;
      }
      return Some(IdentityOf(st));
    }

    /** What a reader under the shared lock is served, whatever floor it had cached and
        whatever residue a dead writer left: the release and generation of the logical state
        if the local floor is the anchor's, and a refusal otherwise. A process poisoned by an
        ambiguous anchor advance is always refused. */
    method ActiveSnapshot(loads: bool) returns (r: Option<(Manifest, int)>)
      requires store.Valid() && store.lawful && (trustedFloor.Some? <==> store.disk.anchor.Some?)
      modifies this`trustedFloor
      ensures trustedFloor.Some? <==> store.disk.anchor.Some?
      ensures r.Some? <==> && AnchorLevel(store.disk) && !(recoveryRequired && store.disk.anchor.Some?)
                           && Logical(store.disk).active.Some? && loads
      ensures r.Some? ==>
        && (store.disk.anchor.Some? ==> store.disk.anchor.value == Logical(store.disk).floor)
        && r.value.1 == Logical(store.disk).generation
        && IdentityOf(Logical(store.disk)) == (r.value.1, Some(r.value.0.version))
        && Published(store.disk.registry, r.value.0.version) && r.value.0 == store.disk.registry[r.value.0.version].manifest
        && r.value.0 in store.disk.passed
    {
      store.IsSound();
      var st := StateOf(store.disk);
      var readable := ValidateStateAnchor(st);
      if !readable || st.active.None? {
        return None;
      }
      var version := st.versions.At(st.active.value).value;
      var tree := store.disk.slots.At(st.active.value);
      if !Verified(store.disk.registry, tree, version) || !loads {
        return None;
      }
      return Some((tree.manifest, st.generation));
    }
  }
}
