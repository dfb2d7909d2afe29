/** The bounded inference queue, with the history of where every admitted item went. */
module Queue {
  import opened Options

  datatype OverflowPolicy = DropOldest | DropNewest | Reject

  datatype Item<T> = Item(payload: T, deadline: Option<real>)

  datatype Push<T> = Full | Refused | Accepted(evicted: Option<Item<T>>)

  predicate Lapsed<T>(i: Item<T>, now: real) {
    i.deadline.Some? && i.deadline.value <= now
  }

  /** How many items at the head of the queue have lapsed at `now`. */
  function LapsedPrefix<T>(q: seq<Item<T>>, now: real): (k: nat)
    ensures k <= |q|
    ensures forall i | 0 <= i < k :: Lapsed(q[i], now)
    ensures k < |q| ==> !Lapsed(q[k], now)
  {
    if q == [] || !Lapsed(q[0], now) then 0 else 1 + LapsedPrefix(q[1..], now)
  }

  /** What a push does to the queue under each overflow policy. */
  predicate Pushes<T(==)>(policy: OverflowPolicy, capacity: nat, q: seq<Item<T>>, item: Item<T>, r: Push<T>, q': seq<Item<T>>) {
    && r == (if |q| < capacity then Accepted(None)
             else match policy
                  case Reject => Full
                  case DropNewest => Refused
                  case DropOldest => if q == [] then Accepted(None) else Accepted(Some(q[0])))
    && q' == if !r.Accepted? then q else (if r.evicted.Some? then q[1..] else q) + [item]
  }

  /** What one pass of a pop does at clock reading `now`: lapsed items at the head are set
      aside and the first item still in time, if any, is taken. */
  predicate Pops<T(==)>(q: seq<Item<T>>, now: real, late: seq<Item<T>>, item: Option<Item<T>>, q': seq<Item<T>>) {
    && q == late + (if item.Some? then [item.value] else []) + q'
    && (forall i | 0 <= i < |late| :: Lapsed(late[i], now))
    && if item.Some? then !Lapsed(item.value, now) else q' == []
  }

  /** The first item with the payload, if any, is taken out. */
  predicate Removes<T(==)>(q: seq<Item<T>>, payload: T, found: bool, q': seq<Item<T>>) {
    && (found <==> exists i | 0 <= i < |q| :: q[i].payload == payload)
    && if found then
         exists at | 0 <= at < |q| ::
           && q[at].payload == payload && (forall i | 0 <= i < at :: q[i].payload != payload)
           && q' == q[..at] + q[at + 1..]
       else q' == q
  }

  // ---------------------------------------------------------------- history

  /** What became of an admitted item; `Late` covers pops and submitters that found it lapsed. */
  datatype Fate = Waiting | Returned | Late | Evicted | Drained

  /** All admitted items in push order, the fate of each, the numbers of those still queued,
      and the numbers that left by pop in the order they left. */
  datatype History<T> = History(items: seq<Item<T>>, fate: seq<Fate>, waiting: seq<nat>, popped: seq<nat>)

  function Count(fate: seq<Fate>, f: Fate): nat {
    if fate == [] then 0 else (if fate[|fate| - 1] == f then 1 else 0) + Count(fate[..|fate| - 1], f)
  }

  ghost predicate Increasing(s: seq<nat>) {
    forall i, j | 0 <= i < j < |s| :: s[i] < s[j]
  }

  /** The history accounts for exactly the queue `q`, and pops left in push order. */
  ghost predicate Accounts<T>(h: History<T>, q: seq<Item<T>>) {
    && |h.fate| == |h.items|
    && |h.waiting| == |q| && Increasing(h.waiting)
    && (forall i | 0 <= i < |q| :: h.waiting[i] < |h.items| && h.items[h.waiting[i]] == q[i] && h.fate[h.waiting[i]] == Waiting)
    && Count(h.fate, Waiting) == |q|
    && Increasing(h.popped)
    && (forall i | 0 <= i < |h.popped| :: h.popped[i] < |h.items| && h.fate[h.popped[i]] in {Returned, Late})
    && (forall i, j | 0 <= i < |h.popped| && 0 <= j < |q| :: h.popped[i] < h.waiting[j])
  }

  function Admitted<T>(h: History<T>, item: Item<T>): History<T> {
    History(h.items + [item], h.fate + [Waiting], h.waiting + [|h.items|], h.popped)
  }

  /** The `i`-th queued item leaves with fate `f`; a pop notes the order. */
  function Left<T>(h: History<T>, i: nat, f: Fate, byPop: bool): History<T>
    requires i < |h.waiting| && h.waiting[i] < |h.fate|
  {
    var n := h.waiting[i];
    History(h.items, h.fate[n := f], h.waiting[..i] + h.waiting[i + 1..], if byPop then h.popped + [n] else h.popped)
  }

  function DrainedFate(fate: seq<Fate>): (r: seq<Fate>)
    ensures |r| == |fate|
  {
    if fate == [] then []
    else DrainedFate(fate[..|fate| - 1]) + [if fate[|fate| - 1] == Waiting then Drained else fate[|fate| - 1]]
  }

  lemma {:induction false} CountUpdate(fate: seq<Fate>, n: nat, f: Fate, g: Fate)
    requires n < |fate| && fate[n] != f
    ensures Count(fate[n := f], g) == Count(fate, g) + (if g == f then 1 else 0) - (if g == fate[n] then 1 else 0)
  {
    var last := |fate| - 1;
    if n == last {
      assert fate[n := f][..last] == fate[..last];
    } else {
      assert fate[n := f][..last] == fate[..last][n := f];
      CountUpdate(fate[..last], n, f, g);
    }
  }

  lemma {:induction false} CountDrained(fate: seq<Fate>, f: Fate)
    ensures Count(DrainedFate(fate), f) ==
            if f == Waiting then 0 else Count(fate, f) + (if f == Drained then Count(fate, Waiting) else 0)
    ensures forall i | 0 <= i < |fate| :: DrainedFate(fate)[i] == if fate[i] == Waiting then Drained else fate[i]
  {
    if fate != [] {
      CountDrained(fate[..|fate| - 1], f);
      assert DrainedFate(fate)[..|fate| - 1] == DrainedFate(fate[..|fate| - 1]);
    }
  }

  lemma {:induction false} CountsAddUp(fate: seq<Fate>)
    ensures |fate| == Count(fate, Waiting) + Count(fate, Returned) + Count(fate, Late) + Count(fate, Evicted) + Count(fate, Drained)
  {
    if fate != [] {
      CountsAddUp(fate[..|fate| - 1]);
    }
  }

  lemma AdmittedAccounts<T>(h: History<T>, q: seq<Item<T>>, item: Item<T>)
    requires Accounts(h, q)
    ensures Accounts(Admitted(h, item), q + [item])
    ensures forall f :: Count(Admitted(h, item).fate, f) == Count(h.fate, f) + if f == Waiting then 1 else 0
  {
    var h', q' := Admitted(h, item), q + [item];
    assert h'.fate[..|h.fate|] == h.fate;
    assert forall i | 0 <= i < |q'| :: h'.items[h'.waiting[i]] == q'[i];
  }

  lemma LeftAccounts<T>(h: History<T>, q: seq<Item<T>>, i: nat, f: Fate, byPop: bool)
    requires Accounts(h, q) && i < |q| && f != Waiting
    requires byPop ==> i == 0 && f in {Returned, Late}
    ensures |h.waiting| == |q| && h.waiting[i] < |h.fate|
    ensures Accounts(Left(h, i, f, byPop), q[..i] + q[i + 1..])
    ensures forall g :: Count(Left(h, i, f, byPop).fate, g) ==
              Count(h.fate, g) + (if g == f then 1 else 0) - (if g == Waiting then 1 else 0)
  {
    hide Count;
    var n := h.waiting[i];
    var h', q' := Left(h, i, f, byPop), q[..i] + q[i + 1..];
    forall g ensures Count(h'.fate, g) == Count(h.fate, g) + (if g == f then 1 else 0) - (if g == Waiting then 1 else 0) {
      CountUpdate(h.fate, n, f, g);
    }
    forall k | 0 <= k < |q'|
      ensures h'.waiting[k] == h.waiting[if k < i then k else k + 1] && q'[k] == q[if k < i then k else k + 1]
      ensures h'.waiting[k] != n
    {
    }
    assert Increasing(h'.waiting);
  }

  lemma DrainAccounts<T>(h: History<T>, q: seq<Item<T>>)
    requires Accounts(h, q)
    ensures Accounts(h.(fate := DrainedFate(h.fate), waiting := []), [])
    ensures forall g :: Count(DrainedFate(h.fate), g) ==
              if g == Waiting then 0 else Count(h.fate, g) + (if g == Drained then |q| else 0)
  {
    forall g ensures Count(DrainedFate(h.fate), g) == if g == Waiting then 0 else Count(h.fate, g) + (if g == Drained then |q| else 0) {
      CountDrained(h.fate, g);
    }
    CountDrained(h.fate, Waiting);
  }

  // ---------------------------------------------------------------- the queue

  class BoundedInferenceQueue<T(==)> {
    const capacity: nat
    const policy: OverflowPolicy
    var q: seq<Item<T>>
    var dropped: nat
    var expired: nat
    var accepted: nat
    ghost var history: History<T>
    ghost var refusals: nat

    /** The depth is bounded, the history accounts for the queue, and the counters are exact. */
    ghost predicate Valid()
      reads this
    {
      && 1 <= capacity && |q| <= capacity
      && Accounts(history, q)
      && accepted == |history.items|
      && expired == Count(history.fate, Late)
      && dropped == Count(history.fate, Evicted) + refusals
    }

    constructor (capacity: nat, policy: OverflowPolicy)
      requires capacity >= 1
      ensures Valid() && this.capacity == capacity && this.policy == policy
      ensures q == [] && dropped == expired == accepted == 0
    {
      this.capacity, this.policy := capacity, policy;
      q, dropped, expired, accepted := [], 0, 0, 0;
      history, refusals := History([], [], [], []), 0;
    }

    method PushWithEvicted(payload: T, deadline: Option<real>) returns (r: Push<T>)
      requires Valid()
      modifies this
      ensures Valid()
      ensures Pushes(policy, capacity, old(q), Item(payload, deadline), r, q)
      ensures accepted == old(accepted) + (if r.Accepted? then 1 else 0) && expired == old(expired)
      ensures dropped == old(dropped) + if r.Refused? || (r.Accepted? && r.evicted.Some?) then 1 else 0
      ensures history.popped == old(history).popped
    {
      hide Accounts, Count;
      var gone: Option<Item<T>> := None;
      if |q| >= capacity {
        if policy == Reject {
          return Full;
        }
        if policy == DropNewest {
          dropped, refusals := dropped + 1, refusals + 1;
          return Refused;
        }
        gone := Some(q[0]);
        LeftAccounts(history, q, 0, Evicted, false);
        assert q[..0] + q[1..] == q[1..];
        history := Left(history, 0, Evicted, false);
        q := q[1..];
        dropped := dropped + 1;
      }
      AdmittedAccounts(history, q, Item(payload, deadline));
      history := Admitted(history, Item(payload, deadline));
      q := q + [Item(payload, deadline)];
      accepted := accepted + 1;
      return Accepted(gone);
    }

    /** The head leaves by pop, in time or late. */
    method PopHead(late: bool) returns (head: Item<T>)
      requires Valid() && q != []
      modifies this`q, this`expired, this`history
      ensures Valid() && head == old(q)[0] && q == old(q)[1..]
      ensures expired == old(expired) + (if late then 1 else 0)
      ensures history.popped == old(history).popped + [old(history).waiting[0]]
    {
      hide Accounts, Count;
      head := q[0];
      assert q[..0] + q[1..] == q[1..];
      LeftAccounts(history, q, 0, if late then Late else Returned, true);
      history := Left(history, 0, if late then Late else Returned, true);
      q := q[1..];
      expired := expired + if late then 1 else 0;
    }

    /** One lock-held pass of `pop_with_expired` at clock reading `now`: the lapsed items at the
        head are set aside and the first item still in time, if any, is returned. */
    method PopSection(now: real) returns (item: Option<Item<T>>, late: seq<Item<T>>)
      requires Valid()
      modifies this`q, this`expired, this`history
      ensures Valid()
      ensures Pops(old(q), now, late, item, q) && expired == old(expired) + |late|
      ensures old(history).popped <= history.popped
    {
      hide Accounts, Count;
      late := [];
      while q != []
        invariant Valid() && old(q) == late + q
        invariant forall i | 0 <= i < |late| :: Lapsed(late[i], now)
        invariant expired == old(expired) + |late| && old(history).popped <= history.popped
        decreases |q|
      {
        var lapsed := Lapsed(q[0], now);
        var head := PopHead(lapsed);
        if !lapsed {
          return Some(head), late;
        }
        late := late + [head];
      }
      item := None;
    }

    /** Removes one still-queued payload by identity, counted as expired. */
    method ExpirePayload(payload: T) returns (found: bool)
      requires Valid()
      modifies this`q, this`expired, this`history
      ensures Valid()
      ensures Removes(old(q), payload, found, q)
      ensures expired == old(expired) + if found then 1 else 0
      ensures history.popped == old(history).popped
    {
      hide Accounts, Count;
      for index := 0 to |q|
        invariant Valid() && q == old(q) && expired == old(expired) && history == old(history)
        invariant forall i | 0 <= i < index :: q[i].payload != payload
      {
        if q[index].payload == payload {
          LeftAccounts(history, q, index, Late, false);
          history := Left(history, index, Late, false);
          q := q[..index] + q[index + 1..];
          expired := expired + 1;
          return true;
        }
      }
      return false;
    }

    method Drain() returns (items: seq<Item<T>>)
      requires Valid()
      modifies this`q, this`history
      ensures Valid() && q == [] && items == old(q)
    {
      items := q;
      DrainAccounts(history, q);
      q, history := [], history.(fate := DrainedFate(history.fate), waiting := []);
    }

    /** The counters balance: everything accepted is queued, returned, expired, evicted or drained. */
    lemma Balanced()
      requires Valid()
      ensures accepted == |q| + Count(history.fate, Returned) + expired + (dropped - refusals) + Count(history.fate, Drained)
    {
      CountsAddUp(history.fate);
    }
  }
}
