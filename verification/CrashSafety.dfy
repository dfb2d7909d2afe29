/** Crash safety of every run.

    A run is a lawful log of durable steps from an empty root. Because a crash is the
    absence of further steps and recovery is itself made of lawful steps, these logs cover
    deploys, failed gates, rollbacks, registry additions, crashes between any two steps and
    crashes inside recovery, in any order. */
module CrashSafety {
  import opened Options
  import opened Releases
  import opened DurableState

  /** A newly provisioned root: nothing committed, an empty registry, the anchor (if any) at -1. */
  predicate Fresh(d: Disk) {
    && d.state.None? && d.journal.None?
    && d.slots == Pair(Absent, Absent) && d.backups == Pair(Absent, Absent) && d.candidates == Pair(Absent, Absent)
    && d.registry == map[] && d.passed == {}
    && (d.anchor.Some? ==> d.anchor.value == -1)
  }

  lemma FreshIsSound(d: Disk)
    requires Fresh(d)
    ensures Sound(d)
  {
  }

  /** The step that makes the logical state `after` durable: with an anchor a promotion is
      decided by the anchor's advance; everything else by the rename of `state.json`. */
  predicate CommitPoint(d: Disk, op: Op, after: State) {
    if d.anchor.Some? && after.status == Active then op.AdvanceAnchor? else op.WriteState?
  }

  // ---------------------------------------------------------------- one step

  /** `d'` differs from `d` only in directories, and may record more passed gates. */
  predicate SameRecords(d: Disk, d': Disk) {
    && d'.state == d.state && d'.journal == d.journal && d'.anchor == d.anchor
    && d'.registry == d.registry && d.passed <= d'.passed
  }

  lemma SlotFrame(d: Disk, d': Disk, s: Slot)
    requires SameRecords(d, d') && SlotSound(d, s)
    requires d'.slots.At(s) == d.slots.At(s) && d'.backups.At(s) == d.backups.At(s)
    ensures SlotSound(d', s)
  {
  }

  lemma JournalFrame(d: Disk, d': Disk)
    requires SameRecords(d, d') && JournalSound(d)
    requires Logical(d) == StateOf(d) || d'.slots.At(Inactive(StateOf(d))) == d.slots.At(Inactive(StateOf(d)))
    ensures JournalSound(d')
  {
  }

  /** A step on slot `s` that keeps a copy of what the logical state needs there. */
  lemma SlotStepKeeps(d: Disk, d': Disk, s: Slot)
    requires Sound(d) && SameRecords(d, d') && SlotSound(d', s)
    requires d.state.None? ==> d'.slots == d.slots && d'.backups == d.backups
    requires d'.slots.At(s.Other()) == d.slots.At(s.Other()) && d'.backups.At(s.Other()) == d.backups.At(s.Other())
    requires Logical(d).active != Some(s) || d'.slots.At(s) == d.slots.At(s)
    ensures Sound(d') && Logical(d') == Logical(d)
  {
    SlotFrame(d, d', s.Other());
    JournalFrame(d, d');
  }

  lemma StagingKeeps(d: Disk, op: Op)
    requires Sound(d) && Allowed(d, op)
    requires op.Stage? || op.Qualify? || (op.Scrub? && op.place.CandidateDir?)
    ensures Sound(Apply(d, op)) && Logical(Apply(d, op)) == Logical(d)
  {
    SlotFrame(d, Apply(d, op), A);
    SlotStepKeeps(d, Apply(d, op), A);
  }

  lemma ScrubBackupKeeps(d: Disk, s: Slot, gone: bool)
    requires Sound(d) && Allowed(d, Scrub(BackupDir(s), gone))
    ensures Sound(Apply(d, Scrub(BackupDir(s), gone))) && Logical(Apply(d, Scrub(BackupDir(s), gone))) == Logical(d)
  {
    SlotStepKeeps(d, Apply(d, Scrub(BackupDir(s), gone)), s);
  }

  lemma ScrubSlotKeeps(d: Disk, s: Slot, gone: bool)
    requires Sound(d) && Allowed(d, Scrub(SlotDir(s), gone))
    ensures Sound(Apply(d, Scrub(SlotDir(s), gone))) && Logical(Apply(d, Scrub(SlotDir(s), gone))) == Logical(d)
  {
    SlotStepKeeps(d, Apply(d, Scrub(SlotDir(s), gone)), s);
  }

  lemma DisplaceKeeps(d: Disk, s: Slot)
    requires Sound(d) && Allowed(d, Displace(s))
    ensures Sound(Apply(d, Displace(s))) && Logical(Apply(d, Displace(s))) == Logical(d)
  {
    SlotStepKeeps(d, Apply(d, Displace(s)), s);
  }

  lemma InstallKeeps(d: Disk, s: Slot)
    requires Sound(d) && Allowed(d, Install(s))
    ensures Sound(Apply(d, Install(s))) && Logical(Apply(d, Install(s))) == Logical(d)
  {
    SlotStepKeeps(d, Apply(d, Install(s)), s);
  }

  lemma RestoreKeeps(d: Disk, s: Slot)
    requires Sound(d) && Allowed(d, Restore(s))
    ensures Sound(Apply(d, Restore(s))) && Logical(Apply(d, Restore(s))) == Logical(d)
  {
    SlotStepKeeps(d, Apply(d, Restore(s)), s);
  }

  lemma JournalKeeps(d: Disk, op: Op)
    requires Sound(d) && Allowed(d, op) && (op.WriteJournal? || op.DropJournal?)
    ensures Sound(Apply(d, op)) && Logical(Apply(d, op)) == Logical(d)
  {
  }

  lemma PublishKeepsVerified(d: Disk, v: Version, m: Manifest)
    requires Catalogued(d.registry) && Allowed(d, Publish(v, m))
    ensures var reg := Apply(d, Publish(v, m)).registry;
            && Catalogued(reg)
            && (forall u | u in d.registry :: u in reg && reg[u] == d.registry[u])
            && (forall u, t: Tree :: Verified(d.registry, t, u) ==> Verified(reg, t, u))
  {
  }

  lemma PublishKeeps(d: Disk, v: Version, m: Manifest)
    requires Sound(d) && Allowed(d, Publish(v, m))
    ensures Sound(Apply(d, Publish(v, m))) && Logical(Apply(d, Publish(v, m))) == Logical(d)
  {
    PublishKeepsVerified(d, v, m);
    var d' := Apply(d, Publish(v, m));
    assert StateOf(d') == StateOf(d) && Logical(d') == Logical(d);
    assert SlotSound(d', A) && SlotSound(d', B) && JournalSound(d');
  }

  lemma AdvanceKeeps(d: Disk, n: int)
    requires Sound(d) && Allowed(d, AdvanceAnchor(n))
    ensures Sound(Apply(d, AdvanceAnchor(n))) && Transition(Logical(d), Logical(Apply(d, AdvanceAnchor(n))))
  {
    var st, p := StateOf(d), d.journal.value;
    assert Logical(Apply(d, AdvanceAnchor(n))) == Promoted(st, Inactive(st), p.version, Max(st.floor, n));
  }

  lemma CommitKeeps(d: Disk, st': State)
    requires Sound(d) && MayCommit(d, st')
    ensures Sound(Apply(d, WriteState(st')))
    ensures Transition(Logical(d), Logical(Apply(d, WriteState(st')))) && Logical(Apply(d, WriteState(st'))) == st'
    ensures d.anchor.Some? ==> st'.status != Active
  {
    var st, d' := StateOf(d), Apply(d, WriteState(st'));
    assert Logical(d) == st && Logical(d') == st';
    if st' == RolledBackTo(st) && st.previous.Some? {
    } else if e: string :| st' == GateFailed(st, e) {
    } else {
      var v: Version :| IsPromotion(d, v, st');
    }
  }

  lemma WriteKeeps(d: Disk, st': State)
    requires Sound(d) && Allowed(d, WriteState(st'))
    ensures Sound(Apply(d, WriteState(st')))
    ensures || Logical(Apply(d, WriteState(st'))) == Logical(d)
            || (&& Transition(Logical(d), Logical(Apply(d, WriteState(st'))))
                && (d.anchor.Some? ==> Logical(Apply(d, WriteState(st'))).status != Active))
  {
    if MayCommit(d, st') {
      CommitKeeps(d, st');
    }
  }

  /** Every allowed step keeps the invariant, and it either leaves the logical state alone
      or is the commit point of exactly one transition. */
  lemma StepRefines(d: Disk, op: Op)
    requires Sound(d) && Allowed(d, op)
    ensures Sound(Apply(d, op))
    ensures || Logical(Apply(d, op)) == Logical(d)
            || (CommitPoint(d, op, Logical(Apply(d, op))) && Transition(Logical(d), Logical(Apply(d, op))))
  {
    match op
    case Scrub(CandidateDir(_), _) => StagingKeeps(d, op);
    case Scrub(BackupDir(s), gone) => ScrubBackupKeeps(d, s, gone);
    case Scrub(SlotDir(s), gone) => ScrubSlotKeeps(d, s, gone);
    case Stage(_, _) => StagingKeeps(d, op);
    case Qualify(_, _, _, _) => StagingKeeps(d, op);
    case Displace(s) => DisplaceKeeps(d, s);
    case Install(s) => InstallKeeps(d, s);
    case Restore(s) => RestoreKeeps(d, s);
    case WriteJournal(_) => JournalKeeps(d, op);
    case DropJournal => JournalKeeps(d, op);
    case Publish(v, m) => PublishKeeps(d, v, m);
    case AdvanceAnchor(n) => AdvanceKeeps(d, n);
    case WriteState(st) => WriteKeeps(d, st);
  }

  // ---------------------------------------------------------------- whole runs

  /** Steps taken later do not change the disks a run went through. */
  lemma {:induction false} DiskAtPrefix(d: Disk, ops: seq<Op>, more: seq<Op>, k: nat)
    requires k <= |ops|
    ensures DiskAt(d, ops + more, k) == DiskAt(d, ops, k)
  {
    if k > 0 {
      DiskAtPrefix(d, ops, more, k - 1);
    }
  }

  lemma DiskAtSnoc(d: Disk, ops: seq<Op>, op: Op)
    ensures DiskAt(d, ops + [op], |ops| + 1) == Apply(DiskAt(d, ops, |ops|), op)
  {
    DiskAtPrefix(d, ops, [op], |ops|);
  }

  lemma LawfulSnoc(d: Disk, ops: seq<Op>, op: Op)
    requires Lawful(d, ops) && Allowed(DiskAt(d, ops, |ops|), op)
    ensures Lawful(d, ops + [op])
  {
    var log := ops + [op];
    forall k: nat | k < |log| ensures Allowed(DiskAt(d, log, k), log[k]) {
      DiskAtPrefix(d, ops, [op], k);
      assert log[k] == if k < |ops| then ops[k] else op;
    }
  }

  /** Wherever a run stops, the disk it leaves is sound. */
  lemma {:induction false} RunIsSound(d: Disk, ops: seq<Op>, k: nat)
    requires Sound(d) && Lawful(d, ops) && k <= |ops|
    ensures Sound(DiskAt(d, ops, k))
  {
    if k > 0 {
      RunIsSound(d, ops, k - 1);
      StepRefines(DiskAt(d, ops, k - 1), ops[k - 1]);
    }
  }

  /** Crash atomicity over runs: the logical state, which is what a restart will serve,
      changes only at a commit point, and there by one whole transition. */
  lemma RunIsAtomic(d: Disk, ops: seq<Op>, k: nat)
    requires Sound(d) && Lawful(d, ops) && k < |ops|
    ensures var before, after := Logical(DiskAt(d, ops, k)), Logical(DiskAt(d, ops, k + 1));
            before == after || (CommitPoint(DiskAt(d, ops, k), ops[k], after) && Transition(before, after))
  {
    RunIsSound(d, ops, k);
    StepRefines(DiskAt(d, ops, k), ops[k]);
  }

  /** `d'` can only come after `d`: nothing that must not go back has gone back, and a
      generation number never stands for two different states. */
  ghost predicate Later(d: Disk, d': Disk) {
    && Logical(d).generation <= Logical(d').generation && Logical(d).floor <= Logical(d').floor
    && (Logical(d).generation == Logical(d').generation ==> Logical(d) == Logical(d'))
    && StateOf(d).generation <= StateOf(d').generation && StateOf(d).floor <= StateOf(d').floor
    && (StateOf(d).generation == StateOf(d').generation ==> StateOf(d) == StateOf(d'))
    && (d.anchor.Some? <==> d'.anchor.Some?) && (d.anchor.Some? ==> d.anchor.value <= d'.anchor.value)
    && (forall v | v in d.registry :: v in d'.registry && d'.registry[v] == d.registry[v])
    && d.passed <= d'.passed
  }

  lemma TransitionGrows(st: State, st': State)
    requires Transition(st, st')
    ensures st'.generation == st.generation + 1 && st'.floor >= st.floor
  {
  }

  lemma CommitIsTransition(d: Disk, st': State)
    requires MayCommit(d, st')
    ensures Transition(StateOf(d), st')
  {
    if v: Version :| IsPromotion(d, v, st') {
    }
  }

  /** `state.json` itself is only ever replaced by a state of the next generation. */
  lemma CommittedStateGrows(d: Disk, op: Op)
    requires Allowed(d, op)
    ensures || StateOf(Apply(d, op)) == StateOf(d)
            || (&& StateOf(Apply(d, op)).generation == StateOf(d).generation + 1
                && StateOf(Apply(d, op)).floor >= StateOf(d).floor)
  {
    if op.WriteState? && MayCommit(d, op.st) {
      CommitIsTransition(d, op.st);
      TransitionGrows(StateOf(d), op.st);
    }
  }

  lemma StepIsLater(d: Disk, op: Op)
    requires Sound(d) && Allowed(d, op)
    ensures Later(d, Apply(d, op))
  {
    var d' := Apply(d, op);
    assert Logical(d') == Logical(d) || Transition(Logical(d), Logical(d')) by { StepRefines(d, op); }
    if Logical(d') != Logical(d) {
      TransitionGrows(Logical(d), Logical(d'));
    }
    CommittedStateGrows(d, op);
  }

  lemma LaterIsTransitive(d: Disk, d': Disk, d'': Disk)
    requires Later(d, d') && Later(d', d'')
    ensures Later(d, d'')
  {
  }

  lemma LaterIsReflexive(d: Disk)
    ensures Later(d, d)
  {
  }

  /** Anti-rollback over runs: the floor and the anchor never decrease, each committed change
      has a strictly larger generation, and registry entries are immutable. */
  lemma {:induction false} RunIsMonotone(d: Disk, ops: seq<Op>, i: nat, j: nat)
    requires Sound(d) && Lawful(d, ops) && i <= j <= |ops|
    ensures Later(DiskAt(d, ops, i), DiskAt(d, ops, j))
    decreases j
  {
    hide Later, Sound, Allowed, Apply;
    if i == j {
      LaterIsReflexive(DiskAt(d, ops, i));
    } else {
      RunIsMonotone(d, ops, i, j - 1);
      RunIsSound(d, ops, j - 1);
      StepIsLater(DiskAt(d, ops, j - 1), ops[j - 1]);
      LaterIsTransitive(DiskAt(d, ops, i), DiskAt(d, ops, j - 1), DiskAt(d, ops, j));
    }
  }

  /** The logical states along a run. */
  ghost function History(d: Disk, ops: seq<Op>): (h: seq<State>)
    ensures |h| == |ops| + 1 && forall k: nat | k <= |ops| :: h[k] == Logical(DiskAt(d, ops, k))
  {
    seq(|ops| + 1, k requires 0 <= k <= |ops| => Logical(DiskAt(d, ops, k)))
  }

  /** Each state follows from the one before by at most one new generation. */
  ghost predicate Chained(h: seq<State>) {
    forall k :: 0 <= k < |h| - 1 ==> h[k + 1] == h[k] || h[k + 1].generation == h[k].generation + 1
  }

  lemma {:induction false} ChainedIsMonotone(h: seq<State>, i: nat, j: nat)
    requires Chained(h) && i <= j < |h|
    ensures h[i].generation <= h[j].generation && (h[i].generation == h[j].generation ==> h[i] == h[j])
    decreases j
  {
    if i < j {
      ChainedIsMonotone(h, i, j - 1);
      assert h[j - 1 + 1] == h[j];
    }
  }

  lemma {:induction false} ChangeIsOneStep(h: seq<State>, i: nat, j: nat) returns (c: nat)
    requires Chained(h) && i < j < |h| && h[j].generation == h[i].generation + 1
    ensures i <= c < j && h[c + 1] != h[c]
    ensures forall k | i <= k <= c :: h[k] == h[i]
    ensures forall k | c < k <= j :: h[k] == h[j]
    decreases j - i
  {
    if h[i + 1] == h[i] {
      c := ChangeIsOneStep(h, i + 1, j);
    } else {
      c := i;
      forall k | c < k <= j ensures h[k] == h[j] {
        ChainedIsMonotone(h, i + 1, k);
        ChainedIsMonotone(h, k, j);
      }
    }
  }

  lemma HistoryIsChained(d: Disk, ops: seq<Op>)
    requires Sound(d) && Lawful(d, ops)
    ensures Chained(History(d, ops))
  {
    var h := History(d, ops);
    forall k | 0 <= k < |h| - 1 ensures h[k + 1] == h[k] || h[k + 1].generation == h[k].generation + 1 {
      RunIsAtomic(d, ops, k);
      if h[k + 1] != h[k] {
        TransitionGrows(h[k], h[k + 1]);
      }
    }
  }

  /** Crash atomicity of one operation: if the logical state moved by one generation between
      steps `i` and `j`, some step `c` between them is its commit point, and a restart serves
      the old state from every crash up to `c` and the new state from every crash after it. */
  lemma CommitIsOneStep(d: Disk, ops: seq<Op>, i: nat, j: nat) returns (c: nat)
    requires Sound(d) && Lawful(d, ops) && i < j <= |ops|
    requires History(d, ops)[j].generation == History(d, ops)[i].generation + 1
    ensures i <= c < j && CommitPoint(DiskAt(d, ops, c), ops[c], History(d, ops)[j])
    ensures forall k | i <= k <= c :: History(d, ops)[k] == History(d, ops)[i]
    ensures forall k | c < k <= j :: History(d, ops)[k] == History(d, ops)[j]
  {
    HistoryIsChained(d, ops);
    c := ChangeIsOneStep(History(d, ops), i, j);
    RunIsAtomic(d, ops, c);
  }

  /** An operation that did not move the generation is invisible to every restart. */
  lemma NoCommitNoChange(d: Disk, ops: seq<Op>, i: nat, k: nat, j: nat)
    requires Sound(d) && Lawful(d, ops) && i <= k <= j <= |ops|
    requires History(d, ops)[j].generation == History(d, ops)[i].generation
    ensures History(d, ops)[k] == History(d, ops)[i]
  {
    HistoryIsChained(d, ops);
    ChainedIsMonotone(History(d, ops), i, k);
    ChainedIsMonotone(History(d, ops), k, j);
  }

  // ---------------------------------------------------------------- health-gate history

  /** Step `k` of the run recorded a passing gate for the staged manifest `m`; the active
      model, if there was one, was measured too, so the accuracy drop was bounded. */
  ghost predicate PassedAt(d: Disk, ops: seq<Op>, k: nat, m: Manifest) {
    && k < |ops| && ops[k].Qualify?
    && DiskAt(d, ops, k).candidates.At(ops[k].s) == Signed(m)
    && Healthy(ops[k].policy, ops[k].metrics, ops[k].baseline)
    && (ops[k].baseline.Some? <==> StateOf(DiskAt(d, ops, k)).active.Some?)
  }

  lemma QualifyPasses(d: Disk, op: Op, m: Manifest)
    requires Allowed(d, op) && m in Apply(d, op).passed && m !in d.passed
    ensures op.Qualify? && d.candidates.At(op.s) == Signed(m) && Healthy(op.policy, op.metrics, op.baseline)
    ensures op.baseline.Some? <==> StateOf(d).active.Some?
  {
  }

  lemma {:induction false} PassedWasGated(d: Disk, ops: seq<Op>, k: nat, m: Manifest)
    requires Lawful(d, ops) && k <= |ops| && m in DiskAt(d, ops, k).passed && m !in d.passed
    ensures exists i: nat | i < k :: PassedAt(d, ops, i, m)
  {
    if k > 0 {
      var before, op := DiskAt(d, ops, k - 1), ops[k - 1];
      assert Allowed(before, op);
      if m in before.passed {
        PassedWasGated(d, ops, k - 1, m);
      } else {
        QualifyPasses(before, op, m);
        assert PassedAt(d, ops, k - 1, m);
      }
    }
  }

  /** Every version a committed or logical state names, at any point of any run from a fresh
      root, passed the health gate earlier in that run on bytes equal to its registry release. */
  lemma NamedVersionsPassedTheGate(d: Disk, ops: seq<Op>, k: nat, s: Slot, v: Version)
    requires Fresh(d) && Lawful(d, ops) && k <= |ops|
    requires StateOf(DiskAt(d, ops, k)).versions.At(s) == Some(v) || Logical(DiskAt(d, ops, k)).versions.At(s) == Some(v)
    ensures Published(DiskAt(d, ops, k).registry, v)
    ensures exists i: nat | i < k :: PassedAt(d, ops, i, DiskAt(d, ops, k).registry[v].manifest)
  {
    FreshIsSound(d);
    RunIsSound(d, ops, k);
    PassedWasGated(d, ops, k, DiskAt(d, ops, k).registry[v].manifest);
  }

  // ---------------------------------------------------------------- restart

  /** Every sound disk can be brought back into service by a recovery that knows the anchor. */
  lemma SoundIsStartable(d: Disk)
    requires Sound(d)
    ensures Startable(d, d.anchor)
  {
  }

  /** What recovery leaves is sound, clean, and logically where it started; and recovering a
      clean disk has nothing to do. */
  lemma SettledIsSound(d: Disk)
    requires Sound(d)
    ensures var d' := Settle(d, Logical(d));
            Sound(d') && Clean(d') && Logical(d') == Logical(d) && Settle(d', Logical(d')) == d'
  {
  }

  /** The version that a sequence stands for is unique, so the target of a recovery is. */
  lemma RecoveryTargetIsUnique(d: Disk, u: Version, v: Version, n: int)
    requires Sound(d) && Published(d.registry, u) && Published(d.registry, v)
    requires d.registry[u].manifest.sequence == n && d.registry[v].manifest.sequence == n
    ensures u == v && OwnsSequence(d.registry, v, n)
  {
  }

  /** A crash anywhere inside an operation that commits at most once, followed by a restart,
      serves either exactly the state before the operation or exactly the state after it. */
  lemma RestartServesOldOrNew(d: Disk, ops: seq<Op>, i: nat, k: nat, j: nat)
    requires Sound(d) && Lawful(d, ops) && i <= k <= j <= |ops|
    requires History(d, ops)[j].generation <= History(d, ops)[i].generation + 1
    ensures var crashed := DiskAt(d, ops, k);
            && Startable(crashed, crashed.anchor)
            && Logical(crashed) in {History(d, ops)[i], History(d, ops)[j]}
            && Logical(Settle(crashed, Logical(crashed))) == Logical(crashed)
  {
    RunIsSound(d, ops, k);
    SoundIsStartable(DiskAt(d, ops, k));
    SettledIsSound(DiskAt(d, ops, k));
    HistoryIsChained(d, ops);
    ChainedIsMonotone(History(d, ops), i, k);
    ChainedIsMonotone(History(d, ops), k, j);
  }

  // ---------------------------------------------------------------- the anchor read before the lock

  /** A process reads the anchor before it takes the lock under which it recovers, so another
      writer may die in between with the anchor already advanced. A recovery that succeeds
      under the value `trusted` leaves a root that can start again exactly when that value is
      still the anchor's. */
  lemma RecoveryNeedsCurrentAnchor(d: Disk, trusted: Option<int>)
    requires Sound(d) && d.anchor.Some? && trusted.Some? && trusted.value <= d.anchor.value
    requires Startable(d, trusted)
    ensures Startable(Settle(d, LogicalAt(d, trusted)), d.anchor) <==> trusted == d.anchor
  {
    if trusted == d.anchor {
      SettledIsSound(d);
      SoundIsStartable(Settle(d, Logical(d)));
    }
  }

  /** Such a stale recovery exists: the first deploy of a release died right after the anchor
      advanced, and a process that had read -1 before then recovers the root into one that no
      later start accepts. */
  lemma StaleAnchorStrands() returns (d: Disk)
    ensures Sound(d) && d.anchor == Some(1) && Startable(d, Some(-1))
    ensures !Startable(Settle(d, LogicalAt(d, Some(-1))), d.anchor)
  {
    var m := Manifest("1.0.0", 1, 1, "");
    d := Disk(Some(INITIAL), Pair(Signed(m), Absent), Pair(Absent, Absent), Pair(Absent, Absent),
              Some(Pending(0, -1, A, "1.0.0", 1)), Some(1), map["1.0.0" := Signed(m)], {m});
    assert Verified(d.registry, d.slots.At(A), "1.0.0");
    assert Logical(d) == Promoted(INITIAL, A, "1.0.0", 1);
    assert SlotSound(d, A) && SlotSound(d, B);
  }
}
