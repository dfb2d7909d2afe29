/** The bounded executor: submitters, worker threads, the evicting enqueuer and the closer all
    race on the same tasks. Each lock-protected section is one step, and any enabled step may
    come next, so the lemmas about runs hold of every interleaving. */
module Executor {
  import opened Options
  import opened Queue

  // ---------------------------------------------------------------- one task

  datatype Outcome = Completed | Failed | Expired | Dropped | Closed | Cancelled

  /** `runs` counts how often a worker began the task. */
  datatype Task = Task(started: bool, outcome: Option<Outcome>, runs: nat)

  const FRESH := Task(false, None, 0)

  function Begun(t: Task): Task {
    if t.outcome.Some? then t else t.(started := true, runs := t.runs + 1)
  }

  function Finished(t: Task, o: Outcome): Task {
    if t.outcome.Some? then t else t.(outcome := Some(o))
  }

  /** `expire_if_not_started` and `cancel_if_not_started`. */
  function GivenUp(t: Task, o: Outcome): Task {
    if t.outcome.Some? || t.started then t else t.(outcome := Some(o))
  }

  class InferenceTask {
    var started: bool
    var outcome: Option<Outcome>
    ghost var runs: nat

    ghost function Value(): Task
      reads this
    {
      Task(started, outcome, runs)
    }

    constructor ()
      ensures Value() == FRESH
    {
      started, outcome, runs := false, None, 0;
    }

    method Begin() returns (ok: bool)
      modifies this
      ensures ok == old(outcome).None? && Value() == Begun(old(Value()))
    {
      if outcome.Some? {
        return false;
      }
      started := true;
      runs := runs + 1;
      return true;
    }

    method Complete(o: Outcome)
      modifies this
      ensures Value() == Finished(old(Value()), o)
    {
      if outcome.Some? {
        return;
      }
      outcome := Some(o);
    }

    method ExpireIfNotStarted() returns (ok: bool)
      modifies this
      ensures ok == (old(outcome).None? && !old(started)) && Value() == GivenUp(old(Value()), Expired)
    {
      if outcome.Some? || started {
        return false;
      }
      outcome := Some(Expired);
      return true;
    }

    method CancelIfNotStarted() returns (ok: bool)
      modifies this
      ensures ok == (old(outcome).None? && !old(started)) && Value() == GivenUp(old(Value()), Cancelled)
    {
      if outcome.Some? || started {
        return false;
      }
      outcome := Some(Cancelled);
      return true;
    }
  }

  // ---------------------------------------------------------------- the executor

  type Id = nat

  /** Where a worker is in its loop: gathering lapsed items while it polls, completing the
      ones it gathered, about to begin an item, running it, or gone. */
  datatype Worker =
    | Polling(late: seq<Id>)
    | Settling(late: seq<Id>, next: Option<Id>)
    | Holding(id: Id)
    | Running(id: Id)
    | Exited

  /** Who is responsible for a task; a history variable. */
  datatype Place = InQueue | WithWorker(w: nat) | Evicting | Closing | Gone

  datatype Exec = Exec(
    capacity: nat,
    policy: OverflowPolicy,
    tasks: map<Id, Task>,
    place: map<Id, Place>,
    queue: seq<Item<Id>>,
    workers: seq<Worker>,
    evicting: Option<Id>,     // popped by an enqueuer that still holds the state lock
    closing: seq<Id>,         // drained by the closer, which still holds the state lock
    closed: bool)

  datatype Step =
    | Enqueue(id: Id, deadline: Option<real>)
    | CompleteEvicted
    | Pop(w: nat, now: real, timedOut: bool)
    | CompleteLate(w: nat)
    | Proceed(w: nat)
    | Begin(w: nat)
    | Finish(w: nat, ok: bool)
    | SubmitterExpires(id: Id)
    | SubmitterCancels(id: Id)
    | RemoveQueued(id: Id)
    | Close
    | CompleteClosing

  function Ids(q: seq<Item<Id>>): (r: seq<Id>)
    ensures |r| == |q| && forall i | 0 <= i < |q| :: r[i] == q[i].payload
  {
    seq(|q|, i requires 0 <= i < |q| => q[i].payload)
  }

  function Hand(k: Worker): seq<Id> {
    match k
    case Polling(late) => late
    case Settling(late, next) => late + (if next.Some? then [next.value] else [])
    case Holding(id) => [id]
    case Running(id) => [id]
    case Exited => []
  }

  predicate LockFree(e: Exec) { e.evicting.None? && e.closing == [] }

  /** The step can be taken now. */
  predicate Enabled(e: Exec, s: Step) {
    match s
    case Enqueue(id, _) => LockFree(e) && !e.closed && id !in e.tasks && e.capacity >= 1
    case CompleteEvicted => e.evicting.Some? && e.evicting.value in e.tasks
    case Pop(w, _, _) => w < |e.workers| && e.workers[w].Polling?
    case CompleteLate(w) =>
      w < |e.workers| && e.workers[w].Settling? && e.workers[w].late != [] && e.workers[w].late[0] in e.tasks
    case Proceed(w) => w < |e.workers| && e.workers[w].Settling? && e.workers[w].late == [] && (e.workers[w].next.None? ==> LockFree(e))
    case Begin(w) => w < |e.workers| && e.workers[w].Holding? && e.workers[w].id in e.tasks
    case Finish(w, _) => w < |e.workers| && e.workers[w].Running? && e.workers[w].id in e.tasks
    case SubmitterExpires(id) => id in e.tasks
    case SubmitterCancels(id) => id in e.tasks
    case RemoveQueued(id) => id in e.tasks && e.tasks[id].outcome in {Some(Expired), Some(Cancelled)}
    case Close => LockFree(e) && !e.closed
    case CompleteClosing => e.closing != [] && e.closing[0] in e.tasks
  }

  function Moved(place: map<Id, Place>, ids: seq<Id>, to: Place): map<Id, Place> {
    map id | id in place :: if id in ids then to else place[id]
  }

  /** Removes the first queued entry that carries `id`. */
  function Without(q: seq<Item<Id>>, id: Id): seq<Item<Id>> {
    if q == [] then [] else if q[0].payload == id then q[1..] else [q[0]] + Without(q[1..], id)
  }

  function Next(e: Exec, s: Step): Exec
    requires Enabled(e, s)
  {
    match s
    case Enqueue(id, deadline) =>
      var full := |e.queue| >= e.capacity;
      if full && !e.policy.DropOldest? then e
      else
        var head := if full then [e.queue[0].payload] else [];
        e.(tasks := e.tasks[id := FRESH],
           place := Moved(e.place, head, Evicting)[id := InQueue],
           queue := (if full then e.queue[1..] else e.queue) + [Item(id, deadline)],
           evicting := if full then Some(e.queue[0].payload) else None)
    case CompleteEvicted =>
      var id := e.evicting.value;
      e.(tasks := e.tasks[id := Finished(e.tasks[id], Dropped)], place := Moved(e.place, [id], Gone), evicting := None)
    case Pop(w, now, timedOut) =>
      var k := LapsedPrefix(e.queue, now);
      var late := e.workers[w].late + Ids(e.queue[..k]);
      if k < |e.queue| then
        e.(place := Moved(e.place, Ids(e.queue[..k + 1]), WithWorker(w)),
           queue := e.queue[k + 1..],
           workers := e.workers[w := Settling(late, Some(e.queue[k].payload))])
      else
        e.(place := Moved(e.place, Ids(e.queue), WithWorker(w)),
           queue := [],
           workers := e.workers[w := if timedOut then Settling(late, None) else Polling(late)])
    case CompleteLate(w) =>
      var id := e.workers[w].late[0];
      e.(tasks := e.tasks[id := Finished(e.tasks[id], Expired)],
         place := Moved(e.place, [id], Gone),
         workers := e.workers[w := Settling(e.workers[w].late[1..], e.workers[w].next)])
    case Proceed(w) =>
      e.(workers := e.workers[w := if e.workers[w].next.Some? then Holding(e.workers[w].next.value)
                                   else if e.closed then Exited else Polling([])])
    case Begin(w) =>
      var id := e.workers[w].id;
      if e.tasks[id].outcome.None?
      then e.(tasks := e.tasks[id := Begun(e.tasks[id])], workers := e.workers[w := Running(id)])
      else e.(place := Moved(e.place, [id], Gone), workers := e.workers[w := Polling([])])
    case Finish(w, ok) =>
      var id := e.workers[w].id;
      e.(tasks := e.tasks[id := Finished(e.tasks[id], if ok then Completed else Failed)],
         place := Moved(e.place, [id], Gone),
         workers := e.workers[w := Polling([])])
    case SubmitterExpires(id) => e.(tasks := e.tasks[id := GivenUp(e.tasks[id], Expired)])
    case SubmitterCancels(id) => e.(tasks := e.tasks[id := GivenUp(e.tasks[id], Cancelled)])
    case RemoveQueued(id) =>
      if id in Ids(e.queue) then e.(place := Moved(e.place, [id], Gone), queue := Without(e.queue, id)) else e
    case Close =>
      e.(closed := true, place := Moved(e.place, Ids(e.queue), Closing), queue := [], closing := Ids(e.queue))
    case CompleteClosing =>
      var id := e.closing[0];
      e.(tasks := e.tasks[id := Finished(e.tasks[id], Closed)], place := Moved(e.place, [id], Gone), closing := e.closing[1..])
  }

  // ---------------------------------------------------------------- the steps are the queue's operations

  /** Whatever `PushWithEvicted` may answer, the step admits, evicts and queues the same. */
  lemma EnqueueIsPush(e: Exec, id: Id, deadline: Option<real>, r: Push<Id>, queue: seq<Item<Id>>)
    requires Enabled(e, Enqueue(id, deadline))
    requires Pushes(e.policy, e.capacity, e.queue, Item(id, deadline), r, queue)
    ensures var e' := Next(e, Enqueue(id, deadline));
            && e'.queue == queue && (id in e'.tasks <==> r.Accepted?)
            && e'.evicting == (if r.Accepted? && r.evicted.Some? then Some(r.evicted.value.payload) else None)
  {
  }

  lemma LapsedAre(q: seq<Item<Id>>, now: real, late: seq<Item<Id>>, item: Option<Item<Id>>, rest: seq<Item<Id>>)
    requires Pops(q, now, late, item, rest)
    ensures LapsedPrefix(q, now) == |late| && q[..|late|] == late
    ensures item.Some? ==> |late| < |q| && q[|late|] == item.value && q[|late| + 1..] == rest
    ensures item.None? ==> q == late
  {
    var k := LapsedPrefix(q, now);
    assert forall i | 0 <= i < |late| :: q[i] == late[i];
    assert item.Some? ==> q[|late|] == item.value;
  }

  /** Whatever one pass of `pop_with_expired` may answer, the worker's hand and the queue are
      the same after the step. */
  lemma PopIsPop(e: Exec, w: nat, now: real, timedOut: bool, late: seq<Item<Id>>, item: Option<Item<Id>>, queue: seq<Item<Id>>)
    requires Enabled(e, Pop(w, now, timedOut)) && Pops(e.queue, now, late, item, queue)
    ensures var e' := Next(e, Pop(w, now, timedOut));
            && e'.queue == queue
            && e'.workers == e.workers[w := e'.workers[w]]
            && e'.workers[w] ==
               (var gathered := e.workers[w].late + Ids(late);
                if item.Some? then Settling(gathered, Some(item.value.payload))
                else if timedOut then Settling(gathered, None) else Polling(gathered))
  {
    LapsedAre(e.queue, now, late, item, queue);
  }

  lemma {:induction false} WithoutAt(q: seq<Item<Id>>, id: Id, at: nat)
    requires at < |q| && q[at].payload == id && forall i | 0 <= i < at :: q[i].payload != id
    ensures Without(q, id) == q[..at] + q[at + 1..]
  {
    if at > 0 {
      WithoutAt(q[1..], id, at - 1);
      assert q[..at] + q[at + 1..] == [q[0]] + (q[1..][..at - 1] + q[1..][at..]);
    }
  }

  /** Whatever `expire_payload` may answer, the queue is the same after the step. */
  lemma RemoveIsExpire(e: Exec, id: Id, found: bool, queue: seq<Item<Id>>)
    requires Enabled(e, RemoveQueued(id)) && Removes(e.queue, id, found, queue)
    ensures Next(e, RemoveQueued(id)).queue == queue && (found <==> id in Ids(e.queue))
  {
    if found {
      var at :| 0 <= at < |e.queue| && e.queue[at].payload == id && (forall i | 0 <= i < at :: e.queue[i].payload != id)
                && queue == e.queue[..at] + e.queue[at + 1..];
      assert Ids(e.queue)[at] == id;
      WithoutAt(e.queue, id, at);
    } else {
      assert forall i | 0 <= i < |e.queue| :: Ids(e.queue)[i] != id;
    }
  }

  // ---------------------------------------------------------------- the invariant

  predicate Distinct(s: seq<Id>) {
    forall i, j | 0 <= i < j < |s| :: s[i] != s[j]
  }

  /** The container `s` lists exactly the tasks that `place` puts at `p`, once each. */
  ghost predicate Lists(place: map<Id, Place>, s: seq<Id>, p: Place) {
    && Distinct(s)
    && (forall i | 0 <= i < |s| :: s[i] in place && place[s[i]] == p)
    && (forall id | id in place :: place[id] == p ==> id in s)
  }

  /** A task began at most once, and only a task that began has a result or an error. */
  predicate TaskSound(t: Task) {
    && t.runs == (if t.started then 1 else 0)
    && (t.outcome.Some? ==> (t.outcome.value in {Completed, Failed} <==> t.started))
  }

  /** The tasks are sound, the unfinished ones have a keeper, and the started unfinished ones
      are exactly those that some worker is running. */
  ghost predicate TasksSound(e: Exec) {
    && e.tasks.Keys == e.place.Keys
    && (forall id | id in e.tasks ::
          && TaskSound(e.tasks[id])
          && (e.tasks[id].outcome.None? ==> e.place[id] != Gone)
          && (e.place[id].WithWorker? ==> e.place[id].w < |e.workers|)
          && (e.tasks[id].started && e.tasks[id].outcome.None? ==>
                e.place[id].WithWorker? && e.workers[e.place[id].w] == Running(id)))
    && (forall w | 0 <= w < |e.workers| :: e.workers[w].Running? ==>
          && e.workers[w].id in e.tasks && e.place[e.workers[w].id] == WithWorker(w)
          && e.tasks[e.workers[w].id].started && e.tasks[e.workers[w].id].outcome.None?)
  }

  /** The tasks the container `p` holds. */
  function Holds(e: Exec, p: Place): seq<Id> {
    match p
    case InQueue => Ids(e.queue)
    case WithWorker(w) => if w < |e.workers| then Hand(e.workers[w]) else []
    case Evicting => if e.evicting.Some? then [e.evicting.value] else []
    case Closing => e.closing
    case Gone => []
  }

  ghost predicate Contained(e: Exec) {
    forall p: Place | p != Gone :: Lists(e.place, Holds(e, p), p)
  }

  ghost predicate Inv(e: Exec) {
    TasksSound(e) && Contained(e) && (e.closed ==> e.queue == [])
  }

  // ---------------------------------------------------------------- containers

  lemma DistinctCons(x: Id, s: seq<Id>)
    ensures Distinct([x] + s) <==> Distinct(s) && x !in s
  {
    var t := [x] + s;
    assert forall i | 0 <= i < |s| :: t[i + 1] == s[i];
    if x in s {
      var i :| 0 <= i < |s| && s[i] == x;
      assert t[0] == t[i + 1];
    }
  }

  lemma FrontLeaves(place: map<Id, Place>, s: seq<Id>, k: nat, from: Place, to: Place)
    requires Lists(place, s, from) && k <= |s| && to != from
    ensures Lists(Moved(place, s[..k], to), s[k..], from)
  {
    var place', rest := Moved(place, s[..k], to), s[k..];
    forall i | 0 <= i < |rest| ensures rest[i] !in s[..k] {
      assert rest[i] == s[k + i];
    }
    forall id | id in place' && place'[id] == from ensures id in rest {
      var i :| 0 <= i < |s| && s[i] == id;
      assert i >= k;
      assert rest[i - k] == id;
    }
  }

  lemma {:induction false} WithoutLists(q: seq<Item<Id>>, id: Id)
    requires Distinct(Ids(q)) && id in Ids(q)
    ensures Distinct(Ids(Without(q, id)))
    ensures forall x :: x in Ids(Without(q, id)) <==> x in Ids(q) && x != id
  {
    var x, rest := q[0].payload, Ids(q[1..]);
    assert Ids(q) == [x] + rest;
    DistinctCons(x, rest);
    if x != id {
      WithoutLists(q[1..], id);
      assert Ids(Without(q, id)) == [x] + Ids(Without(q[1..], id));
      DistinctCons(x, Ids(Without(q[1..], id)));
    }
  }

  lemma MiddleLeaves(place: map<Id, Place>, q: seq<Item<Id>>, id: Id, to: Place)
    requires Lists(place, Ids(q), InQueue) && id in Ids(q) && to != InQueue
    ensures Lists(Moved(place, [id], to), Ids(Without(q, id)), InQueue)
  {
    WithoutLists(q, id);
    var s := Ids(Without(q, id));
    forall i | 0 <= i < |s| ensures s[i] in place && s[i] != id && place[s[i]] == InQueue {
      assert s[i] in s;
    }
  }

  lemma BackGains(place: map<Id, Place>, s: seq<Id>, ids: seq<Id>, from: Place, to: Place)
    requires Lists(place, s, to) && Distinct(ids) && to != from
    requires forall id | id in ids :: id in place && place[id] == from
    ensures Lists(Moved(place, ids, to), s + ids, to)
  {
  }

  /** Moving `ids` from one container to another keeps every container's books. */
  lemma Transfer(e: Exec, e': Exec, ids: seq<Id>, from: Place, to: Place)
    requires Contained(e) && from != Gone && from != to
    requires Distinct(ids) && forall id | id in ids :: id in e.place && e.place[id] == from
    requires e'.place == Moved(e.place, ids, to)
    requires Lists(e'.place, Holds(e', from), from)
    requires to != Gone ==> Holds(e', to) == Holds(e, to) + ids
    requires forall p | p != from && p != to :: Holds(e', p) == Holds(e, p)
    ensures Contained(e')
  {
    forall p: Place | p != Gone ensures Lists(e'.place, Holds(e', p), p) {
      assert Lists(e.place, Holds(e, p), p);
      if p == to {
        BackGains(e.place, Holds(e, to), ids, from, to);
      }
    }
  }

  /** The first `k` tasks of container `from` move to the back of container `to`. */
  lemma TransferFront(e: Exec, e': Exec, k: nat, from: Place, to: Place)
    requires Contained(e) && from != Gone && from != to && k <= |Holds(e, from)|
    requires e'.place == Moved(e.place, Holds(e, from)[..k], to)
    requires Holds(e', from) == Holds(e, from)[k..]
    requires to != Gone ==> Holds(e', to) == Holds(e, to) + Holds(e, from)[..k]
    requires forall p | p != from && p != to :: Holds(e', p) == Holds(e, p)
    ensures Contained(e')
  {
    var s := Holds(e, from);
    assert Lists(e.place, s, from);
    FrontLeaves(e.place, s, k, from, to);
    forall id | id in s[..k] ensures id in e.place && e.place[id] == from {
      var i :| 0 <= i < k && s[i] == id;
    }
    Transfer(e, e', s[..k], from, to);
  }

  // ---------------------------------------------------------------- tasks

  /** A task outside the workers' hands that has started is finished. */
  lemma NotStarted(e: Exec, p: Place)
    requires TasksSound(e) && Contained(e) && p != Gone
    requires p.WithWorker? && p.w < |e.workers| ==> !e.workers[p.w].Running?
    ensures forall id | id in Holds(e, p) ::
              id in e.tasks && e.place[id] == p && (e.tasks[id].started ==> e.tasks[id].outcome.Some?)
  {
    assert Lists(e.place, Holds(e, p), p);
  }

  /** Tasks that no worker runs may move; a worker that runs nothing may change its hand. */
  lemma MovedTasks(e: Exec, e': Exec, ids: seq<Id>, to: Place, w: nat)
    requires TasksSound(e) && e'.tasks == e.tasks && e'.place == Moved(e.place, ids, to)
    requires to != Gone && (to.WithWorker? ==> to.w < |e.workers|)
    requires forall id | id in ids :: id in e.tasks && (e.tasks[id].started ==> e.tasks[id].outcome.Some?)
    requires |e'.workers| == |e.workers|
    requires forall u | 0 <= u < |e.workers| ::
               e'.workers[u] == e.workers[u] || (u == w && !e.workers[u].Running? && !e'.workers[u].Running?)
    ensures TasksSound(e')
  {
  }

  /** A finished task leaves its container for good. */
  lemma RetiredTasks(e: Exec, e': Exec, id: Id, w: nat)
    requires TasksSound(e) && id in e.tasks && e'.tasks.Keys == e.tasks.Keys
    requires forall x | x in e.tasks && x != id :: e'.tasks[x] == e.tasks[x]
    requires TaskSound(e'.tasks[id]) && e'.tasks[id].outcome.Some?
    requires e'.place == Moved(e.place, [id], Gone)
    requires |e'.workers| == |e.workers| && (e.place[id].WithWorker? ==> e.place[id] == WithWorker(w))
    requires forall u | 0 <= u < |e.workers| && u != w :: e'.workers[u] == e.workers[u]
    requires w < |e.workers| && e.place[id] == WithWorker(w) ==>
               !e'.workers[w].Running? && (e.workers[w].Running? ==> e.workers[w] == Running(id))
    requires w < |e.workers| && e.place[id] != WithWorker(w) ==> e'.workers[w] == e.workers[w]
    ensures TasksSound(e')
  {
  }

  // ---------------------------------------------------------------- every step keeps the invariant

  lemma GiveUpKeeps(e: Exec, id: Id, o: Outcome)
    requires TasksSound(e) && Contained(e) && id in e.tasks && o in {Expired, Cancelled}
    ensures var e' := e.(tasks := e.tasks[id := GivenUp(e.tasks[id], o)]); TasksSound(e') && Contained(e')
  {
    var e' := e.(tasks := e.tasks[id := GivenUp(e.tasks[id], o)]);
    forall p: Place | p != Gone ensures Lists(e'.place, Holds(e', p), p) {
      assert Holds(e', p) == Holds(e, p);
    }
  }

  /** A fresh task at the tail. */
  lemma AppendKeeps(e: Exec, id: Id, deadline: Option<real>)
    requires TasksSound(e) && Contained(e) && id !in e.tasks
    ensures var e' := e.(tasks := e.tasks[id := FRESH], place := e.place[id := InQueue], queue := e.queue + [Item(id, deadline)]);
            TasksSound(e') && Contained(e')
  {
    var e' := e.(tasks := e.tasks[id := FRESH], place := e.place[id := InQueue], queue := e.queue + [Item(id, deadline)]);
    assert Ids(e'.queue) == Ids(e.queue) + [id];
    forall p: Place | p != Gone ensures Lists(e'.place, Holds(e', p), p) {
      assert Lists(e.place, Holds(e, p), p);
      assert p != InQueue ==> Holds(e', p) == Holds(e, p);
    }
  }

  /** The head goes from the queue to the enqueuer's hand. */
  function EvictHead(e: Exec): Exec
    requires e.queue != []
  {
    e.(place := Moved(e.place, [e.queue[0].payload], Evicting), queue := e.queue[1..], evicting := Some(e.queue[0].payload))
  }

  lemma EvictKeeps(e: Exec)
    requires TasksSound(e) && Contained(e) && e.queue != [] && e.evicting.None?
    ensures TasksSound(EvictHead(e)) && Contained(EvictHead(e))
  {
    var id := e.queue[0].payload;
    assert Ids(e.queue)[..1] == [id] && Ids(e.queue[1..]) == Ids(e.queue)[1..];
    NotStarted(e, InQueue);
    assert id in Holds(e, InQueue);
    TransferFront(e, EvictHead(e), 1, InQueue, Evicting);
    MovedTasks(e, EvictHead(e), [id], Evicting, 0);
  }

  lemma EnqueueKeeps(e: Exec, id: Id, deadline: Option<real>)
    requires TasksSound(e) && Contained(e) && Enabled(e, Enqueue(id, deadline))
    ensures TasksSound(Next(e, Enqueue(id, deadline))) && Contained(Next(e, Enqueue(id, deadline)))
  {
    if |e.queue| < e.capacity {
      AppendKeeps(e, id, deadline);
      assert Moved(e.place, [], Evicting) == e.place;
    } else if e.policy.DropOldest? {
      EvictKeeps(e);
      AppendKeeps(EvictHead(e), id, deadline);
    }
  }

  /** The first task of container `p`, which no worker holds, is completed if it was not. */
  lemma CompleteFrontKeeps(e: Exec, e': Exec, p: Place, o: Outcome)
    requires TasksSound(e) && Contained(e) && p in {Evicting, Closing} && Holds(e, p) != [] && o in {Dropped, Closed}
    requires var id := Holds(e, p)[0];
             id in e.tasks && e'.tasks == e.tasks[id := Finished(e.tasks[id], o)] && e'.place == Moved(e.place, [id], Gone)
    requires e'.workers == e.workers && Holds(e', p) == Holds(e, p)[1..]
    requires forall x | x != p :: Holds(e', x) == Holds(e, x)
    ensures TasksSound(e') && Contained(e')
  {
    var id := Holds(e, p)[0];
    assert Holds(e, p)[..1] == [id];
    NotStarted(e, p);
    TransferFront(e, e', 1, p, Gone);
    RetiredTasks(e, e', id, 0);
  }

  lemma CloseKeeps(e: Exec)
    requires TasksSound(e) && Contained(e) && Enabled(e, Close)
    ensures TasksSound(Next(e, Close)) && Contained(Next(e, Close))
  {
    var ids, e' := Ids(e.queue), Next(e, Close);
    assert ids[..|ids|] == ids && ids[|ids|..] == [] && e.closing + ids == ids;
    NotStarted(e, InQueue);
    TransferFront(e, e', |ids|, InQueue, Closing);
    MovedTasks(e, e', ids, Closing, 0);
  }

  /** The first `k` queued tasks go to worker `w`, behind what it already holds. */
  lemma TakeKeeps(e: Exec, e': Exec, w: nat, k: nat)
    requires TasksSound(e) && Contained(e) && w < |e.workers| && !e.workers[w].Running? && k <= |e.queue|
    requires e'.tasks == e.tasks && e'.place == Moved(e.place, Ids(e.queue[..k]), WithWorker(w)) && e'.queue == e.queue[k..]
    requires e'.evicting == e.evicting && e'.closing == e.closing
    requires |e'.workers| == |e.workers| && e'.workers == e.workers[w := e'.workers[w]]
    requires !e'.workers[w].Running? && Hand(e'.workers[w]) == Hand(e.workers[w]) + Ids(e.queue[..k])
    ensures TasksSound(e') && Contained(e')
  {
    var ids := Ids(e.queue[..k]);
    assert ids == Ids(e.queue)[..k] && Ids(e'.queue) == Ids(e.queue)[k..];
    NotStarted(e, InQueue);
    TransferFront(e, e', k, InQueue, WithWorker(w));
    MovedTasks(e, e', ids, WithWorker(w), w);
  }

  lemma PopKeeps(e: Exec, w: nat, now: real, timedOut: bool)
    requires TasksSound(e) && Contained(e) && Enabled(e, Pop(w, now, timedOut))
    ensures TasksSound(Next(e, Pop(w, now, timedOut))) && Contained(Next(e, Pop(w, now, timedOut)))
  {
    var k, e' := LapsedPrefix(e.queue, now), Next(e, Pop(w, now, timedOut));
    if k < |e.queue| {
      assert Ids(e.queue[..k + 1]) == Ids(e.queue[..k]) + [e.queue[k].payload];
      assert Hand(e'.workers[w]) == Hand(e.workers[w]) + Ids(e.queue[..k + 1]);
      TakeKeeps(e, e', w, k + 1);
    } else {
      assert e.queue[..k] == e.queue && e.queue[k..] == [];
      TakeKeeps(e, e', w, k);
    }
  }

  /** Worker `w` is done with the first task in its hand. */
  lemma ReleaseKeeps(e: Exec, e': Exec, w: nat)
    requires TasksSound(e) && Contained(e) && w < |e.workers| && Hand(e.workers[w]) != []
    requires var id := Hand(e.workers[w])[0];
             && id in e.tasks && id in e'.tasks && e'.tasks == e.tasks[id := e'.tasks[id]]
             && TaskSound(e'.tasks[id]) && e'.tasks[id].outcome.Some?
             && e'.place == Moved(e.place, [id], Gone)
    requires e'.queue == e.queue && e'.evicting == e.evicting && e'.closing == e.closing
    requires |e'.workers| == |e.workers| && e'.workers == e.workers[w := e'.workers[w]]
    requires !e'.workers[w].Running? && Hand(e'.workers[w]) == Hand(e.workers[w])[1..]
    ensures TasksSound(e') && Contained(e')
  {
    var id := Hand(e.workers[w])[0];
    assert Lists(e.place, Holds(e, WithWorker(w)), WithWorker(w));
    assert Hand(e.workers[w])[..1] == [id];
    TransferFront(e, e', 1, WithWorker(w), Gone);
    RetiredTasks(e, e', id, w);
  }

  lemma CompleteLateKeeps(e: Exec, w: nat)
    requires TasksSound(e) && Contained(e) && Enabled(e, CompleteLate(w))
    ensures TasksSound(Next(e, CompleteLate(w))) && Contained(Next(e, CompleteLate(w)))
  {
    var k, e' := e.workers[w], Next(e, CompleteLate(w));
    assert k.late == [k.late[0]] + k.late[1..];
    assert Hand(e'.workers[w]) == Hand(k)[1..];
    NotStarted(e, WithWorker(w));
    assert k.late[0] in Holds(e, WithWorker(w));
    ReleaseKeeps(e, e', w);
  }

  /** Worker `w` changes its place in the loop but not what it holds. */
  lemma SameHands(e: Exec, e': Exec, w: nat)
    requires Contained(e) && w < |e.workers| && e'.place == e.place && e'.queue == e.queue
    requires e'.evicting == e.evicting && e'.closing == e.closing
    requires |e'.workers| == |e.workers| && e'.workers == e.workers[w := e'.workers[w]] && Hand(e'.workers[w]) == Hand(e.workers[w])
    ensures Contained(e')
  {
    forall p: Place | p != Gone ensures Lists(e'.place, Holds(e', p), p) {
      assert Holds(e', p) == Holds(e, p);
    }
  }

  lemma ProceedKeeps(e: Exec, w: nat)
    requires TasksSound(e) && Contained(e) && Enabled(e, Proceed(w))
    ensures TasksSound(Next(e, Proceed(w))) && Contained(Next(e, Proceed(w)))
  {
    var e' := Next(e, Proceed(w));
    assert Hand(e'.workers[w]) == Hand(e.workers[w]);
    SameHands(e, e', w);
    assert Moved(e.place, [], InQueue) == e.place;
    MovedTasks(e, e', [], InQueue, w);
  }

  lemma BegunTasks(e: Exec, w: nat, id: Id)
    requires TasksSound(e) && w < |e.workers| && e.workers[w] == Holding(id) && id in e.tasks
    requires e.tasks[id].outcome.None? && !e.tasks[id].started && e.place[id] == WithWorker(w)
    ensures TasksSound(e.(tasks := e.tasks[id := Begun(e.tasks[id])], workers := e.workers[w := Running(id)]))
  {
  }

  lemma BeginKeeps(e: Exec, w: nat)
    requires TasksSound(e) && Contained(e) && Enabled(e, Begin(w))
    ensures TasksSound(Next(e, Begin(w))) && Contained(Next(e, Begin(w)))
  {
    var id, e' := e.workers[w].id, Next(e, Begin(w));
    NotStarted(e, WithWorker(w));
    assert Holds(e, WithWorker(w))[0] == id;
    if e.tasks[id].outcome.Some? {
      ReleaseKeeps(e, e', w);
    } else {
      BegunTasks(e, w, id);
      SameHands(e, e', w);
    }
  }

  lemma RemoveKeeps(e: Exec, id: Id)
    requires TasksSound(e) && Contained(e) && Enabled(e, RemoveQueued(id))
    ensures TasksSound(Next(e, RemoveQueued(id))) && Contained(Next(e, RemoveQueued(id)))
  {
    var e' := Next(e, RemoveQueued(id));
    if id in Ids(e.queue) {
      assert Lists(e.place, Holds(e, InQueue), InQueue);
      MiddleLeaves(e.place, e.queue, id, Gone);
      Transfer(e, e', [id], InQueue, Gone);
      RetiredTasks(e, e', id, 0);
    }
  }

  lemma TasksStay(e: Exec, s: Step)
    requires TasksSound(e) && Contained(e) && Enabled(e, s)
    ensures TasksSound(Next(e, s)) && Contained(Next(e, s))
  {
    match s
    case Enqueue(id, deadline) => EnqueueKeeps(e, id, deadline);
    case CompleteEvicted => CompleteFrontKeeps(e, Next(e, s), Evicting, Dropped);
    case Pop(w, now, timedOut) => PopKeeps(e, w, now, timedOut);
    case CompleteLate(w) => CompleteLateKeeps(e, w);
    case Proceed(w) => ProceedKeeps(e, w);
    case Begin(w) => BeginKeeps(e, w);
    case Finish(w, _) => ReleaseKeeps(e, Next(e, s), w);
    case SubmitterExpires(id) => GiveUpKeeps(e, id, Expired);
    case SubmitterCancels(id) => GiveUpKeeps(e, id, Cancelled);
    case RemoveQueued(id) => RemoveKeeps(e, id);
    case Close => CloseKeeps(e);
    case CompleteClosing => CompleteFrontKeeps(e, Next(e, s), Closing, Closed);
  }

  /** Every step of every thread keeps the invariant. */
  lemma StepKeeps(e: Exec, s: Step)
    requires Inv(e) && Enabled(e, s)
    ensures Inv(Next(e, s))
  {
    TasksStay(e, s);
  }

  // ---------------------------------------------------------------- runs

  /** An executor that has just started its worker threads. */
  predicate Started(e: Exec) {
    && e.capacity >= 1 && e.tasks == map[] && e.place == map[] && e.queue == [] && e.evicting.None? && e.closing == [] && !e.closed
    && forall w | 0 <= w < |e.workers| :: e.workers[w] == Polling([])
  }

  /** A run: each step was enabled when it was taken. */
  ghost predicate IsRun(e: Exec, steps: seq<Step>)
    decreases |steps|
  {
    steps == [] || (Enabled(e, steps[0]) && IsRun(Next(e, steps[0]), steps[1..]))
  }

  ghost function After(e: Exec, steps: seq<Step>): Exec
    requires IsRun(e, steps)
    decreases |steps|
  {
    if steps == [] then e else After(Next(e, steps[0]), steps[1..])
  }

  lemma {:induction false} RunKeeps(e: Exec, steps: seq<Step>)
    requires Inv(e) && IsRun(e, steps)
    ensures Inv(After(e, steps))
    decreases |steps|
  {
    if steps != [] {
      StepKeeps(e, steps[0]);
      RunKeeps(Next(e, steps[0]), steps[1..]);
    }
  }

  lemma StartedIsSound(e: Exec)
    requires Started(e)
    ensures Inv(e)
  {
  }

  /** Admitted tasks are never forgotten, and a final outcome is never replaced. */
  lemma StepIsFinal(e: Exec, s: Step, id: Id)
    requires Enabled(e, s) && id in e.tasks
    ensures id in Next(e, s).tasks
    ensures e.tasks[id].outcome.Some? ==> Next(e, s).tasks[id] == e.tasks[id]
  {
  }

  lemma {:induction false} OutcomeIsFinal(e: Exec, steps: seq<Step>, id: Id)
    requires IsRun(e, steps) && id in e.tasks
    ensures id in After(e, steps).tasks
    ensures e.tasks[id].outcome.Some? ==> After(e, steps).tasks[id] == e.tasks[id]
    decreases |steps|
  {
    if steps != [] {
      StepIsFinal(e, steps[0], id);
      OutcomeIsFinal(Next(e, steps[0]), steps[1..], id);
    }
  }

  /** Exactly once, over every run: a task begins at most once; a completed or failed task
      began exactly once; a task reported expired, dropped, closed or cancelled has not begun
      and, whatever happens afterwards, never does. */
  lemma ExactlyOnce(e: Exec, steps: seq<Step>, more: seq<Step>, id: Id)
    requires Started(e) && IsRun(e, steps) && IsRun(After(e, steps), more) && id in After(e, steps).tasks
    ensures var t := After(e, steps).tasks[id];
            && t.runs <= 1
            && (t.outcome.Some? ==>
                  && id in After(After(e, steps), more).tasks
                  && After(After(e, steps), more).tasks[id] == t
                  && t.runs == (if t.outcome.value in {Completed, Failed} then 1 else 0))
  {
    StartedIsSound(e);
    RunKeeps(e, steps);
    OutcomeIsFinal(After(e, steps), more, id);
  }

  /** Once the executor is closed, the closer and the last enqueuer are done and the workers
      have exited, every task ever admitted has its outcome. */
  lemma ClosedLeavesNothing(e: Exec, steps: seq<Step>, id: Id)
    requires Started(e) && IsRun(e, steps)
    requires var e' := After(e, steps);
             e'.closed && LockFree(e') && (forall w | 0 <= w < |e'.workers| :: e'.workers[w] == Exited) && id in e'.tasks
    ensures After(e, steps).tasks[id].outcome.Some?
  {
    StartedIsSound(e);
    RunKeeps(e, steps);
    var e' := After(e, steps);
    var p := e'.place[id];
    if p != Gone {
      assert Lists(e'.place, Holds(e', p), p);
    }
  }

  /** The work a pop hands to a worker was still in time when it was popped. */
  lemma PopsLiveWork(e: Exec, w: nat, now: real, timedOut: bool)
    requires Enabled(e, Pop(w, now, timedOut))
    ensures var k := Next(e, Pop(w, now, timedOut)).workers[w];
            k.Settling? && k.next.Some? ==>
              exists i | 0 <= i < |e.queue| :: e.queue[i].payload == k.next.value && !Lapsed(e.queue[i], now)
                           && forall j | 0 <= j < i :: Lapsed(e.queue[j], now) && e.queue[j].payload in k.late
  {
    var n := LapsedPrefix(e.queue, now);
    if n < |e.queue| {
      var late := Ids(e.queue[..n]);
      forall j | 0 <= j < n ensures e.queue[j].payload in e.workers[w].late + late {
        assert late[j] == e.queue[j].payload;
      }
    }
  }
}
