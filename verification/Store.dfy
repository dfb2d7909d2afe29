/** The deployment root as the deployer sees it: a disk changed by one durable step at a time. */
module Storage {
  import opened Releases
  import opened DurableState
  import opened CrashSafety

  class Store {
    var disk: Disk
    const origin: Disk
    var log: seq<Op>          // every durable step since `origin` that reached the disk
    ghost var lawful: bool    // whether each of them was allowed

    ghost predicate Valid()
      reads this
    {
      && disk == DiskAt(origin, log, |log|)
      && (lawful ==> Sound(origin) && Lawful(origin, log))
    }

    constructor (d: Disk)
      ensures Valid() && disk == origin == d && log == [] && (lawful <==> Sound(d))
    {
      disk, origin, log, lawful := d, d, [], Sound(d);
    }

    lemma IsSound()
      requires Valid() && lawful
      ensures Sound(disk)
    {
      RunIsSound(origin, log, |log|);
    }

    lemma SequenceInRange(version: Version)
      requires Valid() && lawful && Published(disk.registry, version)
      ensures 0 <= disk.registry[version].manifest.sequence <= MAX_RELEASE_SEQUENCE
    {
      IsSound();
    }

    /** One durable step. */
    method Do(op: Op)
      requires Valid()
      modifies this
      ensures Valid() && disk == Apply(old(disk), op) && log == old(log) + [op]
      ensures lawful == (old(lawful) && Allowed(old(disk), op))
    {
      DiskAtSnoc(origin, log, op);
      if lawful && Allowed(disk, op) {
        LawfulSnoc(origin, log, op);
      }
      lawful := lawful && Allowed(disk, op);
      log := log + [op];
      disk := Apply(disk, op);
    }

    /** A crash that only the first `k` steps survive. */
    method Crash(k: nat)
      requires Valid() && k <= |log|
      modifies this
      ensures Valid() && log == old(log)[..k] && disk == DiskAt(origin, old(log), k)
      ensures old(lawful) ==> lawful
    {
      hide Allowed, Apply;
      assert log == log[..k] + log[k..];
      forall i: nat | i <= k ensures DiskAt(origin, log[..k], i) == DiskAt(origin, log, i) {
        DiskAtPrefix(origin, log[..k], log[k..], i);
      }
      log := log[..k];
      disk := DiskAt(origin, log, k);
    }

    /** Any lawful steps other threads and processes take while this one holds no lock. A
        caller learns nothing but the contract. */
    method Others()
      requires Valid() && lawful
      modifies this
      ensures Valid() && lawful && old(log) <= log
      ensures disk.anchor.Some? <==> old(disk).anchor.Some?
    {
    }

    /** What was true of the logical state at an earlier point of the log still is. */
    lemma PastIsFixed(earlier: seq<Op>, k: nat)
      requires k <= |earlier| && earlier <= log
      ensures DiskAt(origin, log, k) == DiskAt(origin, earlier, k)
    {
      assert log == earlier + log[|earlier|..];
      DiskAtPrefix(origin, earlier, log[|earlier|..], k);
    }

    /** Every crash point of an operation that began at `began` and committed at most once
        restarts into the state before the operation or the state after it. */
    ghost predicate AtomicSince(began: seq<Op>)
      reads this
    {
      && began <= log
      && forall k: nat | |began| <= k <= |log| ::
           var crashed := DiskAt(origin, log, k);
           Startable(crashed, crashed.anchor) && Logical(crashed) in {Logical(DiskAt(origin, log, |began|)), Logical(disk)}
    }

    lemma CommitsOnce(began: seq<Op>)
      requires Valid() && lawful && began <= log
      requires Logical(disk).generation <= Logical(DiskAt(origin, began, |began|)).generation + 1
      ensures AtomicSince(began)
    {
      PastIsFixed(began, |began|);
      assert History(origin, log)[|log|] == Logical(disk);
      forall k: nat | |began| <= k <= |log|
        ensures var crashed := DiskAt(origin, log, k);
                Startable(crashed, crashed.anchor) && Logical(crashed) in {Logical(DiskAt(origin, log, |began|)), Logical(disk)}
      {
        RestartServesOldOrNew(origin, log, |began|, k, |log|);
      }
    }

    lemma ScrubbedAway(d: Disk, p: Place)
      ensures Apply(Apply(d, Scrub(p, false)), Scrub(p, true)) == Put(d, p, Absent)
      ensures TreeAt(d, p) == Absent ==> Put(d, p, Absent) == d
    {
    }

    /** A delete that may start may be finished. */
    lemma ScrubbedTwice(d: Disk, p: Place)
      requires Sound(d) && Allowed(d, Scrub(p, false))
      ensures Allowed(Apply(d, Scrub(p, false)), Scrub(p, true))
    {
    }

    /** `shutil.rmtree`: a crash may fall when only part of the tree is gone. */
    method RemoveTree(p: Place)
      requires Valid()
      modifies this
      ensures Valid() && disk == Put(old(disk), p, Absent) && old(log) <= log
      ensures old(lawful) && (TreeAt(old(disk), p) == Absent || Allowed(old(disk), Scrub(p, false))) ==> lawful
    {
      hide Allowed, Sound, Apply;
      if TreeAt(disk, p) != Absent {
        ghost var d := disk;
        if lawful && Allowed(d, Scrub(p, false)) {
          IsSound();
          ScrubbedTwice(d, p);
        }
        ScrubbedAway(d, p);
        Do(Scrub(p, false));
        Do(Scrub(p, true));
      } else {
        ScrubbedAway(disk, p);
      }
    }
  }
}
