/** The runtime cache of the inference engine, keyed by deployment generation and version.

    The identity read takes no lock, so deployments, failed gates, rollbacks, crashes and
    recoveries by others, and cache resnapshotes by other threads, may fall between it and the
    locked cache section. */
module Engine {
  import opened Options
  import opened Releases
  import opened DurableState
  import opened CrashSafety
  import opened Storage
  import opened Deployer

  /** A model bound to the version and generation it is served under. */
  datatype Serving = Serving(model: Manifest, version: Version, generation: int)

  /** After `k` steps of the run the committed state had exactly this active identity. */
  ghost predicate ServedAt(store: Store, k: nat, s: Serving)
    reads store
  {
    && k <= |store.log|
    && IdentityOf(StateOf(DiskAt(store.origin, store.log, k))) == (s.generation, Some(s.version))
  }

  /** The model is the canonical release of the version it is served under. */
  ghost predicate Canonical(store: Store, s: Serving)
    reads store
  {
    && Published(store.disk.registry, s.version)
    && store.disk.registry[s.version].manifest == s.model
  }

  class InferenceEngine {
    const deployer: ABDeployer
    var live: Option<Serving>
    var isolated: Option<Serving>

    ghost predicate Valid()
      reads this, deployer, deployer.store
    {
      && deployer.store.Valid() && deployer.store.lawful
      && (deployer.trustedFloor.Some? <==> deployer.store.disk.anchor.Some?)
      && (live.Some? ==> Canonical(deployer.store, live.value))
      && (isolated.Some? ==> Canonical(deployer.store, isolated.value))
    }

    constructor (deployer: ABDeployer)
      requires deployer.store.Valid() && deployer.store.lawful
      requires deployer.trustedFloor.Some? <==> deployer.store.disk.anchor.Some?
      ensures Valid() && this.deployer == deployer && live.None? && isolated.None?
    {
      this.deployer := deployer;
      live, isolated := None, None;
    }

    /** Published releases never change, so neither does what a cached model stands for. */
    twostate lemma CanonicalStays(s: Serving)
      requires old(deployer.store.Valid()) && deployer.store.Valid() && deployer.store.lawful
      requires old(deployer.store.log) <= deployer.store.log && old(Canonical(deployer.store, s))
      ensures Canonical(deployer.store, s)
    {
      var store, k := deployer.store, |old(deployer.store.log)|;
      store.PastIsFixed(old(store.log), k);
      RunIsMonotone(store.origin, store.log, k, |store.log|);
    }

    /** What other threads may do to the cache and the deployment while no lock is held. */
    method Others()
      requires Valid()
      modifies this, deployer`trustedFloor, deployer.store
      ensures Valid() && old(deployer.store.log) <= deployer.store.log
    {
      deployer.store.Others();
      if live.Some? {
        CanonicalStays(live.value);
      }
      if isolated.Some? {
        CanonicalStays(isolated.value);
      }
    }

    /** The lock-free identity read, which leaves every cached model canonical. */
    method ReadIdentity() returns (r: Option<(int, Option<Version>)>)
      requires Valid()
      modifies this, deployer`trustedFloor, deployer.store
      ensures Valid() && old(deployer.store.log) <= deployer.store.log
      ensures r.Some? ==> r.value == IdentityOf(StateOf(old(deployer.store.disk)))
    {
      r := deployer.ActiveIdentity();
      if live.Some? {
        CanonicalStays(live.value);
      }
      if isolated.Some? {
        CanonicalStays(isolated.value);
      }
    }

    /** The locked section: serve the cached model if it carries the identity that was read,
        otherwise take a new snapshot. */
    method Lookup(isolate: bool, generation: int, version: Version, loads: bool) returns (r: Option<Serving>)
      requires Valid()
      modifies this, deployer`trustedFloor
      ensures Valid()
      ensures r.Some? ==> Canonical(deployer.store, r.value)
      ensures r.Some? ==> || (r.value.generation == generation && r.value.version == version)
                          || ServedAt(deployer.store, |deployer.store.log|, r.value)
    {
      var cached := if isolate then isolated else live;
      if cached.Some? && cached.value.generation == generation && cached.value.version == version {
        return cached;
      }
      var snapshot := deployer.ActiveSnapshot(loads);
      if snapshot.None? {
        return None;
      }
      r := Some(Serving(snapshot.value.0, snapshot.value.0.version, snapshot.value.1));
      if isolate {
        isolated := r;
      } else {
        live := r;
      }
    }

    /** `_active` and `isolated_runtime_snapshot`: whatever interleaves with the call, the model,
        version and generation returned belong together, and together they were the active
        identity of the deployment at some instant between the call's start and its return. */
    method Active(isolate: bool, loads: bool) returns (r: Option<Serving>)
      requires Valid()
      modifies this, deployer`trustedFloor, deployer.store
      ensures Valid() && old(deployer.store.log) <= deployer.store.log
      ensures r.Some? ==> Canonical(deployer.store, r.value)
      ensures r.Some? ==> exists k: nat | |old(deployer.store.log)| <= k :: ServedAt(deployer.store, k, r.value)
    {
      ghost var start := deployer.store.log;
      var identity := ReadIdentity();
      if identity.None? || identity.value.1.None? {
        return None;
      }
      Others();
      deployer.store.PastIsFixed(start, |start|);
      r := Lookup(isolate, identity.value.0, identity.value.1.value, loads);
      if r.Some? && r.value.generation == identity.value.0 && r.value.version == identity.value.1.value {
        assert ServedAt(deployer.store, |start|, r.value);
      }
    }
  }
}
