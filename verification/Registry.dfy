/** The immutable release registry and the external anchor, as parts of the durable store. */
module Registries {
  import opened Options
  import opened Releases
  import opened DurableState
  import opened Storage

  class Registry {
    const store: Store

    constructor (store: Store)
      ensures this.store == store
    {
      this.store := store;
    }

    /** Walks every published entry, in any order, and fails closed on an entry that does not
        authenticate or that already owns the sequence under another version. */
    method AssertSequenceAvailable(version: Version, sequence: int) returns (ok: bool)
      ensures ok <==> SequenceAvailable(store.disk.registry, version, sequence)
    {
      var registry := store.disk.registry;
      var remaining := registry.Keys;
      while remaining != {}
        invariant remaining <= registry.Keys
        invariant forall u | u in registry.Keys - remaining ::
                    Published(registry, u) && (registry[u].manifest.sequence == sequence ==> u == version)
        decreases remaining
      {
        var entry :| entry in remaining;
        if !Published(registry, entry) {
          return false;
        }
        if registry[entry].manifest.sequence == sequence && entry != version {
          return false;
        }
        remaining := remaining - {entry};
      }
      return true;
    }

    /** `version` is published and alone owns `sequence`. */
    method AssertSequenceIdentity(version: Version, sequence: int) returns (ok: bool)
      ensures ok <==> OwnsSequence(store.disk.registry, version, sequence)
    {
      var registry := store.disk.registry;
      if !Published(registry, version) || registry[version].manifest.sequence != sequence {
        return false;
      }
      ok := AssertSequenceAvailable(version, sequence);
    }

    /** Publishes a release. `authentic` is the verdict of the signature and artifact checks,
        which also bound the sequence. Versions are immutable, and the catalogue stays
        injective from versions to sequences. */
    method Add(manifest: Manifest, authentic: bool) returns (ok: bool)
      requires store.Valid()
      requires authentic ==> 0 <= manifest.sequence <= MAX_RELEASE_SEQUENCE
      modifies store
      ensures store.Valid() && old(store.log) <= store.log
      ensures ok <==> && authentic && manifest.version !in old(store.disk).registry
                      && SequenceAvailable(old(store.disk).registry, manifest.version, manifest.sequence)
      ensures store.disk == if ok then old(store.disk).(registry := old(store.disk).registry[manifest.version := Signed(manifest)])
                            else old(store.disk)
      ensures Catalogued(old(store.disk).registry) ==> Catalogued(store.disk.registry)
      ensures old(store.lawful) ==> store.lawful
    {
      if !authentic || manifest.version in store.disk.registry {
        return false;
      }
      ok := AssertSequenceAvailable(manifest.version, manifest.sequence);
      if ok {
        store.Do(Publish(manifest.version, manifest));
      }
    }
  }

  /** The software anchor: a durable number that never decreases. */
  class RollbackAnchor {
    const store: Store

    constructor (store: Store)
      ensures this.store == store
    {
      this.store := store;
    }

    method AdvanceTo(sequence: int) returns (ok: bool)
      requires store.Valid() && store.disk.anchor.Some?
      modifies store
      ensures store.Valid() && old(store.log) <= store.log
      ensures ok <==> -1 <= sequence <= MAX_RELEASE_SEQUENCE && sequence >= old(store.disk).anchor.value
      ensures store.disk == old(store.disk).(anchor := if ok then Some(sequence) else old(store.disk).anchor)
      ensures old(store.lawful) && Allowed(old(store.disk), Op.AdvanceAnchor(sequence)) ==> store.lawful
    {
      if sequence < -1 || sequence > MAX_RELEASE_SEQUENCE || sequence < store.disk.anchor.value {
        return false;
      }
      if sequence > store.disk.anchor.value {
        store.Do(Op.AdvanceAnchor(sequence));
      }
      return true;
    }
  }
}
