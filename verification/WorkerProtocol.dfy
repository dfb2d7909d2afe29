/** The request/reply protocol between a runner in the parent and its disposable child.

    One thread drives a runner. The two directions of the socket pair are queues of messages;
    the child may fail a load, fail a prediction or die at any time, and the parent may time
    out at any time. Aborting closes the parent's end, so a socket pair that was abandoned is
    unreachable from then on. */
module WorkerProtocol {
  import opened Options

  type Generation = nat

  /** What the protocol transports: the model bytes of each generation, and what a loaded
      model computes. A generation has one model because generations never repeat. */
  datatype World<!M, !I, !O> = World(modelOf: Generation -> M, logits: (M, I) -> O)

  datatype ToChild<M, I> =
    | Load(generation: Generation, model: M)
    | Predict(requestId: nat, generation: Generation, inputs: I)

  datatype ToParent<O> =
    | Loaded(generation: Generation)
    | LoadError(generation: Generation)
    | Result(requestId: nat, out: O)
    | Error(requestId: nat)

  datatype Child<M> = Child(alive: bool, loaded: Option<(Generation, M)>)

  datatype Link<M, I, O> = Link(down: seq<ToChild<M, I>>, up: seq<ToParent<O>>, child: Child<M>)

  datatype Phase<I> = Idle | Loading(generation: Generation) | Predicting(requestId: nat, generation: Generation, inputs: I)

  /** Logits that `execute` returned, with the request they were returned for. */
  datatype Accepted<I, O> = Accepted(requestId: nat, generation: Generation, inputs: I, out: O)

  datatype Runner<M, I, O> = Runner(
    generation: Option<Generation>,
    requestId: nat,
    phase: Phase<I>,
    link: Option<Link<M, I, O>>,
    accepted: seq<Accepted<I, O>>)

  datatype Step<I> =
    | Start
    | SendLoad(generation: Generation)
    | SendPredict(generation: Generation, inputs: I)
    | RefusePredict                       // the frame could not be encoded
    | ChildLoads(ok: bool)
    | ChildPredicts(ok: bool)
    | ChildDies
    | Receive(wellFormed: bool)
    | GiveUp                              // timeout, closed socket or shutdown

  /** Kills the child and closes the channel. */
  function Aborted<M, I, O>(r: Runner<M, I, O>): Runner<M, I, O> {
    r.(generation := None, phase := Idle, link := None)
  }

  predicate Enabled<M, I, O>(r: Runner<M, I, O>, s: Step<I>) {
    match s
    case Start => r.phase.Idle? && (r.link.None? || !r.link.value.child.alive)
    case SendLoad(g) => r.phase.Idle? && r.link.Some? && r.generation != Some(g)
    case SendPredict(g, _) => r.phase.Idle? && r.link.Some? && r.generation == Some(g)
    case RefusePredict => r.phase.Idle?
    case ChildLoads(_) => r.link.Some? && r.link.value.child.alive && r.link.value.down != [] && r.link.value.down[0].Load?
    case ChildPredicts(_) => r.link.Some? && r.link.value.child.alive && r.link.value.down != [] && r.link.value.down[0].Predict?
    case ChildDies => r.link.Some?
    case Receive(_) => !r.phase.Idle? && r.link.Some? && r.link.value.up != []
    case GiveUp => true
  }

  /** The parent reads one reply. Anything but the reply it waits for kills the child; a
      rejected load does not, and leaves the parent's generation as it was. */
  function Received<M, I, O>(r: Runner<M, I, O>, wellFormed: bool): Runner<M, I, O>
    requires r.link.Some? && r.link.value.up != []
  {
    var m := r.link.value.up[0];
    var r' := r.(phase := Idle, link := Some(r.link.value.(up := r.link.value.up[1..])));
    if !wellFormed then Aborted(r)
    else
      match r.phase
      case Loading(g) =>
        if m.Loaded? && m.generation == g then r'.(generation := Some(g))
        else if m.LoadError? && m.generation == g then r'
        else Aborted(r)
      case Predicting(id, g, inputs) =>
        if m.Result? && m.requestId == id then r'.(accepted := r.accepted + [Accepted(id, g, inputs, m.out)])
        else if m.Error? && m.requestId == id then r'
        else Aborted(r)
      case Idle => r
  }

  function Next<M, I, O>(world: World<M, I, O>, r: Runner<M, I, O>, s: Step<I>): Runner<M, I, O>
    requires Enabled(r, s)
  {
    match s
    case Start => r.(generation := None, link := Some(Link([], [], Child(true, None))))
    case SendLoad(g) =>
      r.(phase := Loading(g), link := Some(r.link.value.(down := r.link.value.down + [Load(g, world.modelOf(g))])))
    case SendPredict(g, inputs) =>
      var id := r.requestId + 1;
      r.(requestId := id, phase := Predicting(id, g, inputs),
         link := Some(r.link.value.(down := r.link.value.down + [Predict(id, g, inputs)])))
    case RefusePredict => r.(requestId := r.requestId + 1)
    case ChildLoads(ok) =>
      var l, m := r.link.value, r.link.value.down[0];
      r.(link := Some(Link(l.down[1..],
                           l.up + [if ok then Loaded(m.generation) else LoadError(m.generation)],
                           l.child.(loaded := if ok then Some((m.generation, m.model)) else None))))
    case ChildPredicts(ok) =>
      var l, m := r.link.value, r.link.value.down[0];
      var reply :=
        if ok && l.child.loaded.Some? && l.child.loaded.value.0 == m.generation
        then Result(m.requestId, world.logits(l.child.loaded.value.1, m.inputs))
        else Error(m.requestId);
      r.(link := Some(l.(down := l.down[1..], up := l.up + [reply])))
    case ChildDies => r.(link := Some(r.link.value.(child := r.link.value.child.(alive := false))))
    case Receive(wellFormed) => Received(r, wellFormed)
    case GiveUp => Aborted(r)
  }

  // ---------------------------------------------------------------- the invariant

  /** The child holds nothing, or the parent's generation with that generation's model. */
  predicate InStep<M(==), I, O>(world: World<M, I, O>, r: Runner<M, I, O>, c: Child<M>) {
    c.loaded.Some? ==> r.generation == Some(c.loaded.value.0) && c.loaded.value.1 == world.modelOf(c.loaded.value.0)
  }

  /** At most one message is under way, and it is the one the parent is waiting for. */
  predicate LinkSound<M(==), I(==), O(==)>(world: World<M, I, O>, r: Runner<M, I, O>, l: Link<M, I, O>) {
    match r.phase
    case Idle => l.down == [] && l.up == [] && InStep(world, r, l.child)
    case Loading(g) =>
      || (l.down == [Load(g, world.modelOf(g))] && l.up == [] && InStep(world, r, l.child))
      || (l.down == [] && l.up == [Loaded(g)] && l.child.loaded == Some((g, world.modelOf(g))))
      || (l.down == [] && l.up == [LoadError(g)] && l.child.loaded == None)
    case Predicting(id, g, inputs) =>
      && r.generation == Some(g) && id == r.requestId && InStep(world, r, l.child)
      && ((l.down == [Predict(id, g, inputs)] && l.up == [])
          || (l.down == [] && (l.up == [Error(id)] || l.up == [Result(id, world.logits(world.modelOf(g), inputs))])))
  }

  predicate Correct<M, I, O(==)>(world: World<M, I, O>, a: Accepted<I, O>) {
    a.out == world.logits(world.modelOf(a.generation), a.inputs)
  }

  predicate Inv<M(==), I(==), O(==)>(world: World<M, I, O>, r: Runner<M, I, O>) {
    && (r.link.None? ==> r.phase.Idle? && r.generation.None?)
    && (r.link.Some? ==> LinkSound(world, r, r.link.value))
    && (forall i | 0 <= i < |r.accepted| :: Correct(world, r.accepted[i]) && r.accepted[i].requestId <= r.requestId)
    && (r.phase.Predicting? ==> forall i | 0 <= i < |r.accepted| :: r.accepted[i].requestId < r.requestId)
    && (forall i, j | 0 <= i < j < |r.accepted| :: r.accepted[i].requestId < r.accepted[j].requestId)
  }

  lemma StepKeeps<M, I, O>(world: World<M, I, O>, r: Runner<M, I, O>, s: Step<I>)
    requires Inv(world, r) && Enabled(r, s)
    ensures Inv(world, Next(world, r, s))
  {
  }

  // ---------------------------------------------------------------- runs

  function New<M, I, O>(): Runner<M, I, O> { Runner(None, 0, Idle, None, []) }

  ghost predicate IsRun<M, I, O>(world: World<M, I, O>, r: Runner<M, I, O>, steps: seq<Step<I>>)
    decreases |steps|
  {
    steps == [] || (Enabled(r, steps[0]) && IsRun(world, Next(world, r, steps[0]), steps[1..]))
  }

  ghost function After<M, I, O>(world: World<M, I, O>, r: Runner<M, I, O>, steps: seq<Step<I>>): Runner<M, I, O>
    requires IsRun(world, r, steps)
    decreases |steps|
  {
    if steps == [] then r else After(world, Next(world, r, steps[0]), steps[1..])
  }

  lemma {:induction false} RunKeeps<M, I, O>(world: World<M, I, O>, r: Runner<M, I, O>, steps: seq<Step<I>>)
    requires Inv(world, r) && IsRun(world, r, steps)
    ensures Inv(world, After(world, r, steps))
    decreases |steps|
  {
    if steps != [] {
      StepKeeps(world, r, steps[0]);
      RunKeeps(world, Next(world, r, steps[0]), steps[1..]);
    }
  }

  /** Over every run of loads, predictions, failures, deaths, timeouts and restarts: every
      logits array the parent accepted is what the model of that request's generation computes
      on that request's inputs, and no two requests were answered by the same reply. */
  lemma AcceptedLogitsAreTheRequests<M, I, O>(world: World<M, I, O>, steps: seq<Step<I>>)
    requires IsRun(world, New(), steps)
    ensures var r := After(world, New(), steps);
            && (forall i | 0 <= i < |r.accepted| ::
                  r.accepted[i].out == world.logits(world.modelOf(r.accepted[i].generation), r.accepted[i].inputs))
            && (forall i, j | 0 <= i < j < |r.accepted| :: r.accepted[i].requestId < r.accepted[j].requestId)
  {
    RunKeeps(world, New(), steps);
    var r := After(world, New(), steps);
    forall i | 0 <= i < |r.accepted| ensures Correct(world, r.accepted[i]) {
    }
  }

  // ---------------------------------------------------------------- after a rejected load

  /** An idle, live link whose child lost its model while the parent still names one. */
  predicate Wedged<M, I, O>(r: Runner<M, I, O>, g: Generation) {
    r.phase.Idle? && r.generation == Some(g) && r.link.Some? && r.link.value.child.loaded.None?
    && r.link.value.down == [] && r.link.value.up == []
  }

  /** A rejected load of generation `h` leaves the parent naming the generation it had before. */
  lemma RejectedLoadWedges<M, I, O>(world: World<M, I, O>, r: Runner<M, I, O>, g: Generation, h: Generation)
    requires Inv(world, r) && r.phase.Idle? && r.generation == Some(g) && g != h && r.link.Some? && r.link.value.child.alive
    ensures var sent := Next(world, r, SendLoad(h));
            var rejected := Next(world, sent, ChildLoads(false));
            Enabled(rejected, Receive(true)) && Wedged(Next(world, rejected, Receive(true)), g)
  {
  }

  /** From an idle link, a request of the parent's generation can be answered with logits if
      and only if the link is not wedged: the parent sends no load for a generation it already
      names, so a wedged child answers only with errors. */
  lemma AnsweredUnlessWedged<M, I, O>(world: World<M, I, O>, r: Runner<M, I, O>, g: Generation, inputs: I)
    requires Inv(world, r) && r.phase.Idle? && r.generation == Some(g) && r.link.Some? && r.link.value.child.alive
    ensures var r2 := Next(world, Next(world, r, SendPredict(g, inputs)), ChildPredicts(true));
            && Enabled(r2, Receive(true))
            && (|Next(world, r2, Receive(true)).accepted| > |r.accepted| <==> !Wedged(r, g))
  {
  }

  /** The generation a step asks the child for. */
  function Asked<I>(s: Step<I>): Option<Generation> {
    match s
    case SendLoad(g) => Some(g)
    case SendPredict(g, _) => Some(g)
    case _ => None
  }

  /** The generations asked for never go back, starting at `last`: one driving thread takes
      each from the deployment, whose generation never decreases. */
  predicate InOrder<I>(steps: seq<Step<I>>, last: Generation) {
    steps == [] || (var g := GetOr(Asked(steps[0]), last); last <= g && InOrder(steps[1..], g))
  }

  /** The last generation asked for. */
  function LastAsked<I>(steps: seq<Step<I>>, last: Generation): Generation {
    if steps == [] then last else LastAsked(steps[1..], GetOr(Asked(steps[0]), last))
  }

  /** What an ordered run keeps: the parent names nothing newer than it asked for, and a child
      without the model the parent names was since asked for a newer one. */
  predicate Orderly<M, I, O>(r: Runner<M, I, O>, last: Generation) {
    && (r.generation.Some? ==> r.generation.value <= last)
    && (r.phase.Loading? ==> r.phase.generation == last && (r.generation.Some? ==> r.generation.value < last))
    && (r.link.Some? && !r.phase.Loading? && r.generation.Some? && r.link.value.child.loaded.None? ==>
          r.phase.Idle? && r.generation.value < last)
  }

  lemma StepIsOrderly<M, I, O>(world: World<M, I, O>, r: Runner<M, I, O>, s: Step<I>, last: Generation)
    requires Inv(world, r) && Orderly(r, last) && Enabled(r, s) && last <= GetOr(Asked(s), last)
    ensures Orderly(Next(world, r, s), GetOr(Asked(s), last))
  {
  }

  lemma {:induction false} RunIsOrderly<M, I, O>(world: World<M, I, O>, r: Runner<M, I, O>, steps: seq<Step<I>>, last: Generation)
    requires Inv(world, r) && Orderly(r, last) && IsRun(world, r, steps) && InOrder(steps, last)
    ensures Orderly(After(world, r, steps), LastAsked(steps, last))
    decreases |steps|
  {
    hide Inv, Orderly, Enabled, Next;
    if steps != [] {
      StepKeeps(world, r, steps[0]);
      StepIsOrderly(world, r, steps[0], last);
      RunIsOrderly(world, Next(world, r, steps[0]), steps[1..], GetOr(Asked(steps[0]), last));
    }
  }

  /** Over every run from a new runner whose generations never go back, no request is ever
      sent to a wedged child: after a rejected load the next request asks for that generation
      or a later one, and is loaded first. */
  lemma OrderedRequestsAreNeverWedged<M, I, O>(world: World<M, I, O>, steps: seq<Step<I>>, g: Generation, inputs: I)
    requires IsRun(world, New(), steps) && InOrder(steps, 0) && LastAsked(steps, 0) <= g
    requires Enabled(After(world, New(), steps), SendPredict(g, inputs))
    ensures !Wedged(After(world, New(), steps), g)
  {
    RunIsOrderly(world, New(), steps, 0);
  }

  /** A load that the child accepts or rejects, from send to reply. */
  function LoadSteps<I>(g: Generation, ok: bool): seq<Step<I>> {
    [SendLoad(g), ChildLoads(ok), Receive(true)]
  }

  function Settled<M, I, O>(r: Runner<M, I, O>, generation: Option<Generation>, loaded: Option<(Generation, M)>): Runner<M, I, O> {
    r.(generation := generation, phase := Idle, link := Some(Link([], [], Child(true, loaded))))
  }

  lemma LoadRun<M, I, O>(world: World<M, I, O>, r: Runner<M, I, O>, g: Generation, ok: bool)
    requires r.phase.Idle? && r.generation != Some(g)
    requires r.link.Some? && r.link.value.down == [] && r.link.value.up == [] && r.link.value.child.alive
    ensures IsRun(world, r, LoadSteps(g, ok))
    ensures After(world, r, LoadSteps(g, ok)) ==
              if ok then Settled(r, Some(g), Some((g, world.modelOf(g)))) else Settled(r, r.generation, None)
  {
    var sent := Next(world, r, SendLoad(g));
    var answered := Next(world, sent, ChildLoads(ok));
    hide IsRun, After;
    NoSteps(world, Next(world, answered, Receive(true)));
    RunOf(world, answered, Receive(true), []);
    RunOf(world, sent, ChildLoads(ok), [Receive(true)]);
    RunOf(world, r, SendLoad(g), [ChildLoads(ok), Receive(true)]);
  }

  lemma NoSteps<M, I, O>(world: World<M, I, O>, r: Runner<M, I, O>)
    ensures IsRun(world, r, []) && After(world, r, []) == r
  {
  }

  lemma RunOf<M, I, O>(world: World<M, I, O>, r: Runner<M, I, O>, s: Step<I>, later: seq<Step<I>>)
    requires Enabled(r, s)
    ensures IsRun(world, Next(world, r, s), later) ==>
              IsRun(world, r, [s] + later) && After(world, r, [s] + later) == After(world, Next(world, r, s), later)
  {
    hide Next, Enabled;
    assert ([s] + later)[1..] == later;
  }

  lemma {:induction false} RunsJoin<M, I, O>(world: World<M, I, O>, r: Runner<M, I, O>, steps: seq<Step<I>>, later: seq<Step<I>>)
    requires IsRun(world, r, steps) && IsRun(world, After(world, r, steps), later)
    ensures IsRun(world, r, steps + later)
    ensures After(world, r, steps + later) == After(world, After(world, r, steps), later)
    decreases |steps|
  {
    hide Next, Enabled;
    if steps == [] {
      assert steps + later == later;
    } else {
      assert (steps + later)[1..] == steps[1..] + later;
      RunsJoin(world, Next(world, r, steps[0]), steps[1..], later);
    }
  }

  /** Without that order they are: once a second caller had a newer generation rejected, a
      request already prepared for the older one goes to a child that holds nothing. It stays
      so until another generation is asked for or the child is replaced. */
  lemma UnorderedRequestIsWedged<M, I, O>(world: World<M, I, O>, g: Generation, h: Generation, inputs: I)
    requires g != h
    ensures var steps: seq<Step<I>> := [Start] + (LoadSteps(g, true) + LoadSteps(h, false));
            && IsRun(world, New(), steps)
            && Enabled(After(world, New(), steps), SendPredict(g, inputs)) && Wedged(After(world, New(), steps), g)
  {
    var started := Next(world, New(), Start);
    LoadRun(world, started, g, true);
    LoadRun(world, After(world, started, LoadSteps(g, true)), h, false);
    RunsJoin(world, started, LoadSteps(g, true), LoadSteps(h, false));
    hide IsRun, After, LoadSteps;
    RunOf(world, New(), Start, LoadSteps(g, true) + LoadSteps(h, false));
  }

  // ---------------------------------------------------------------- the runner

  /** `after` accepted exactly one more result, for the request `before` was waiting on. */
  predicate AnswerTo<M, I(==), O(==)>(before: Runner<M, I, O>, after: Runner<M, I, O>) {
    && before.phase.Predicting? && |after.accepted| == |before.accepted| + 1
    && after.accepted[..|before.accepted|] == before.accepted
    && var a := after.accepted[|before.accepted|];
       a.requestId == before.phase.requestId && a.generation == before.phase.generation && a.inputs == before.phase.inputs
  }

  /** The parent's side as it is driven: each call takes protocol steps, and between any two
      of them the child may answer, refuse, stay silent or die. */
  class ProcessInferenceRunner<!M(==), !I(==), !O(==)> {
    const world: World<M, I, O>
    var state: Runner<M, I, O>

    ghost predicate Ready()
      reads this
    {
      Inv(world, state) && state.phase.Idle?
    }

    /** The child holds the model of generation `g`. */
    predicate Owns(g: Generation)
      reads this
    {
      state.link.Some? && state.link.value.child.loaded == Some((g, world.modelOf(g)))
    }

    constructor (world: World<M, I, O>)
      ensures Ready() && this.world == world && state == New()
    {
      this.world, state := world, New();
    }

    method Take(s: Step<I>)
      requires Inv(world, state) && Enabled(state, s)
      modifies this
      ensures Inv(world, state) && state == Next(world, old(state), s)
    {
      StepKeeps(world, state, s);
      state := Next(world, state, s);
    }

    /** What the child does with the message it was sent: answer it, refuse it, or die. */
    method ChildTurn()
      requires Inv(world, state) && !state.phase.Idle? && state.link.Some?
      modifies this
      ensures Inv(world, state) && state.link.Some?
      ensures state == old(state).(link := state.link)
    {
      var ok: bool := *;
      if state.link.value.child.alive && state.link.value.down != [] {
        if state.link.value.down[0].Load? {
          Take(ChildLoads(ok));
        } else {
          Take(ChildPredicts(ok));
        }
      }
      var dies: bool := *;
      if dies {
        Take(ChildDies);
      }
    }

    /** Waits for the reply to the message just sent; `false` means the child was killed. */
    method Await() returns (replied: bool)
      requires Inv(world, state) && !state.phase.Idle?
      modifies this
      ensures Ready() && state.requestId == old(state).requestId && (replied <==> state.link.Some?)
      ensures old(state.phase).Loading? ==> state.accepted == old(state).accepted
      ensures old(state.phase).Loading? && old(state).generation != Some(old(state.phase).generation) ==>
                (state.generation == Some(old(state.phase).generation) ==> Owns(old(state.phase).generation))
      ensures old(state.phase).Predicting? ==> state.accepted == old(state).accepted || AnswerTo(old(state), state)
    {
      ChildTurn();
      var timedOut, wellFormed: bool := *, *;
      if timedOut || state.link.value.up == [] {
        Take(GiveUp);
      } else {
        Take(Receive(wellFormed));
      }
      return state.link.Some?;
    }

    /** Makes sure the child owns generation `g`, except on a link that was wedged at `g`
        before: there the parent believes it already does. */
    method LoadGeneration(g: Generation) returns (ok: bool)
      requires Ready()
      modifies this
      ensures Ready() && state.accepted == old(state).accepted && state.requestId == old(state).requestId
      ensures ok ==> state.generation == Some(g) && state.link.Some? && (Owns(g) || (Wedged(old(state), g) && state == old(state)))
    {
      if state.link.None? || !state.link.value.child.alive {
        Take(Start);
      }
      if state.generation == Some(g) {
        return true;
      }
      Take(SendLoad(g));
      var replied := Await();
      return replied && state.generation == Some(g);
    }

    /** One request. Logits are only ever returned for this request: they are what the model of
        its generation computes on its inputs. */
    method Execute(g: Generation, inputs: I) returns (logits: Option<O>)
      requires Ready()
      modifies this
      ensures Ready()
      ensures logits.Some? ==> logits.value == world.logits(world.modelOf(g), inputs)
    {
      var loaded := LoadGeneration(g);
      if !loaded {
        return None;
      }
      Take(SendPredict(g, inputs));
      var answered := |state.accepted|;
      var replied := Await();
      if !replied || |state.accepted| == answered {
        return None;
      }
      assert Correct(world, state.accepted[answered]);
      return Some(state.accepted[answered].out);
    }
  }
}
