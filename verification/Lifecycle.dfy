/** A device over its whole life: deploys, rollbacks, additions to the registry, reads,
    failures and restarts in any order, starting from a newly provisioned root. */
module Lifecycle {
  import opened Options
  import opened Releases
  import opened DurableState
  import opened CrashSafety
  import opened Storage
  import opened Registries
  import opened Deployer

  datatype Request =
    | DeployRelease(version: Version, gate: Gate, allowDowngrade: bool, fault: Fault)
    | RollBack(loads: bool, fault: Fault)
    | AddRelease(manifest: Manifest, authentic: bool)
    | Read(loads: bool)
    | Restart(lost: nat)   // the process died, and up to `lost` of its last operation's steps never reached the disk

  predicate Admits(r: Request) {
    r.AddRelease? && r.authentic ==> 0 <= r.manifest.sequence <= MAX_RELEASE_SEQUENCE
  }

  /** A new release does not disturb a clean root. */
  lemma AddKeepsClean(d: Disk, m: Manifest)
    requires Sound(d) && Clean(d) && m.version !in d.registry
    ensures Clean(d.(registry := d.registry[m.version := Signed(m)]))
  {
  }

  class Device {
    const store: Store
    const policy: HealthPolicy
    const maxModelBytes: nat
    var deployer: ABDeployer
    var began: nat    // how long the log was when the last operation started

    /** Between operations: the root is clean, or this process must recover it first.
        Either way, wherever the last operation is cut, a restart finds its old or its
        new state. */
    ghost predicate Ready()
      reads this, store, deployer
    {
      && deployer.store == store && store.Valid() && store.lawful && Fresh(store.origin)
      && store.disk.state.Some? && (Clean(store.disk) || deployer.recoveryRequired)
      && (deployer.trustedFloor.Some? <==> store.disk.anchor.Some?)
      && (deployer.recoveryRequired ==> deployer.trustedFloor.Some?)
      && began <= |store.log| && store.AtomicSince(store.log[..began])
    }

    constructor (store: Store, policy: HealthPolicy, maxModelBytes: nat)
      requires store.Valid() && store.lawful && Fresh(store.origin)
      modifies store
      ensures Ready() && this.store == store && fresh(deployer)
      ensures store.disk == Settle(old(store.disk), Logical(old(store.disk)))
    {
      this.store, this.policy, this.maxModelBytes := store, policy, maxModelBytes;
      deployer := new ABDeployer(store, policy, maxModelBytes, store.disk.anchor);
      began := |store.log|;
      new;
      Recover();
    }

    /** Start-up recovery never fails, and keeps what the disk stood for. */
    method Recover()
      requires store.Valid() && store.lawful && Fresh(store.origin) && began == |store.log|
      requires deployer.store == store && deployer.trustedFloor == store.disk.anchor && !deployer.recoveryRequired
      modifies store, deployer
      ensures Ready() && Clean(store.disk) && !deployer.recoveryRequired
      ensures store.disk == Settle(old(store.disk), Logical(old(store.disk)))
    {
      hide Allowed, Lawful, Sound, Startable, Settle;
      ghost var d, log := store.disk, store.log;
      store.IsSound();
      SoundIsStartable(d);
      SettledIsSound(d);
      var ok := deployer.Recover();
      SettledIsReady(d);
      store.CommitsOnce(log);
      assert store.log[..began] == log;
      assert ok;
    }

    /** The process dies during its last operation and starts again. What it then serves
        is the state before that operation or the state after it. */
    method Reboot(lost: nat)
      requires Ready()
      modifies this, store
      ensures Ready() && fresh(deployer) && Clean(store.disk) && !deployer.recoveryRequired
      ensures StateOf(store.disk) in {Logical(DiskAt(store.origin, old(store.log), old(began))), Logical(old(store.disk))}
    {
      hide Allowed, Lawful, Sound, Startable, Settle, Fresh, Clean;
      ghost var disk, log := store.disk, store.log;
      var survived := if lost <= |store.log| - began then |store.log| - lost else began;
      store.Crash(survived);
      deployer := new ABDeployer(store, policy, maxModelBytes, store.disk.anchor);
      began := survived;
      ghost var crashed := store.disk;
      Recover();
      SettledIsReady(crashed);
    }

    method DeployRelease(version: Version, gate: Gate, allowDowngrade: bool, fault: Fault) returns (r: Outcome)
      requires Ready()
      modifies this`began, store, deployer
      ensures Ready() && began == |old(store.log)| && old(store.log) <= store.log
      ensures r == if old(deployer.recoveryRequired) then Rejected
                   else DeployOutcome(old(store.disk), deployer.policy, deployer.maxModelBytes, version, gate, allowDowngrade, fault)
      ensures DeployLeaves(old(store.disk), store.disk, r, version, gate.error, fault)
      ensures deployer.recoveryRequired <==> old(deployer.recoveryRequired) || r.Interrupted?
    {
      hide Allowed, Lawful, Sound, Startable, Settle, Fresh, Clean, DeployOutcome, DeployLeaves;
      ghost var log := store.log;
      began := |store.log|;
      r := deployer.Deploy(version, gate, allowDowngrade, fault);
      assert store.log[..began] == log;
    }

    method RollBack(loads: bool, fault: Fault) returns (done: bool)
      requires Ready()
      modifies this`began, store, deployer
      ensures Ready() && began == |old(store.log)| && old(store.log) <= store.log
      ensures done <==> !deployer.recoveryRequired && StateOf(old(store.disk)).previous.Some? && loads && fault != StateWriteFails
      ensures done ==> store.disk == old(store.disk).(state := Some(RolledBackTo(StateOf(old(store.disk)))))
      ensures !done ==> store.disk == old(store.disk)
    {
      hide Allowed, Lawful, Sound, Startable, Settle, Fresh, Clean;
      ghost var d, log := store.disk, store.log;
      store.IsSound();
      began := |store.log|;
      var refused;
      done, refused := deployer.Rollback(loads, fault);
      if done {
        RollbackIsOneStep(d);
      }
      store.CommitsOnce(log);
      assert store.log[..began] == log;
    }

    method AddRelease(manifest: Manifest, authentic: bool) returns (added: bool)
      requires Ready() && (authentic ==> 0 <= manifest.sequence <= MAX_RELEASE_SEQUENCE)
      modifies this`began, store
      ensures Ready() && began == |old(store.log)| && old(store.log) <= store.log
      ensures added ==> Published(store.disk.registry, manifest.version)
      ensures StateOf(store.disk) == StateOf(old(store.disk)) && Logical(store.disk) == Logical(old(store.disk))
    {
      hide Allowed, Lawful, Sound, Startable, Settle, Fresh, Clean;
      ghost var d, log := store.disk, store.log;
      store.IsSound();
      began := |store.log|;
      var registry := new Registry(store);
      added := registry.Add(manifest, authentic);
      if added && Clean(d) {
        AddKeepsClean(d, manifest);
      }
      store.CommitsOnce(log);
      assert store.log[..began] == log;
    }

    method ReadActive(loads: bool) returns (served: Option<(Manifest, int)>)
      requires Ready()
      modifies this`began, deployer
      ensures Ready() && began == |store.log|
      ensures deployer.recoveryRequired ==> served.None?
      ensures served.Some? ==> served.value.0 in store.disk.passed && served.value.1 == Logical(store.disk).generation
    {
      hide Allowed, Lawful, Sound, Startable, Settle, Fresh, Clean;
      began := |store.log|;
      served := deployer.ActiveSnapshot(loads);
      store.CommitsOnce(store.log);
      assert store.log[..began] == store.log;
    }

    /** One request, whatever came before it. */
    method Handle(r: Request)
      requires Ready() && Admits(r)
      modifies this, store, deployer
      ensures Ready() && (deployer == old(deployer) || fresh(deployer))
      ensures !r.Restart? ==> began == |old(store.log)| && old(store.log) <= store.log
      ensures r.Restart? ==> Clean(store.disk) && !deployer.recoveryRequired
    {
      hide Ready, Clean;
      match r {
        case DeployRelease(version, gate, allowDowngrade, fault) =>
          var outcome := DeployRelease(version, gate, allowDowngrade, fault);
        case RollBack(loads, fault) =>
          var done := RollBack(loads, fault);
        case AddRelease(manifest, authentic) =>
          var added := AddRelease(manifest, authentic);
        case Read(loads) =>
          var served := ReadActive(loads);
        case Restart(lost) => Reboot(lost);
      }
    }

    /** Any sequence of requests leaves the device ready for the next one; the steps that
        reached the disk are a lawful run from the new root, so every result about such
        runs holds of the device's whole life. */
    method Live(requests: seq<Request>)
      requires Ready() && forall r | r in requests :: Admits(r)
      modifies this, store, deployer
      ensures Ready() && Lawful(store.origin, store.log)
      ensures forall k: nat | k <= |store.log| ::
                var crashed := DiskAt(store.origin, store.log, k); Sound(crashed) && Startable(crashed, crashed.anchor)
    {
      hide Allowed, Sound, Startable, Settle, Fresh, Clean;
      var i := 0;
      while i < |requests|
        invariant i <= |requests| && Ready() && (deployer == old(deployer) || fresh(deployer))
      {
        Handle(requests[i]);
        i := i + 1;
      }
      forall k: nat | k <= |store.log|
        ensures var crashed := DiskAt(store.origin, store.log, k); Sound(crashed) && Startable(crashed, crashed.anchor)
      {
        FreshIsSound(store.origin);
        RunIsSound(store.origin, store.log, k);
        SoundIsStartable(DiskAt(store.origin, store.log, k));
      }
    }
  }

  lemma SettledIsReady(d: Disk)
    ensures var d' := Settle(d, Logical(d));
            d'.state.Some? && d'.anchor == d.anchor && StateOf(d') == Logical(d)
  {
  }

  lemma RollbackIsOneStep(d: Disk)
    requires Sound(d) && Clean(d)
    ensures Logical(d) == StateOf(d)
    ensures Logical(d.(state := Some(RolledBackTo(StateOf(d))))).generation == Logical(d).generation + 1
  {
  }
}
