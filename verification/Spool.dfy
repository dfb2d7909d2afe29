/** The offline telemetry spool: a bounded file of records, oldest first, that is
    appended to, trimmed and flushed.  Writing the file is one step, whether it
    appends a line or replaces the whole; a crash may fall between the calls to
    the sink and the rewrite that forgets what was sent. */
module Spool {
  import opened Options
  import opened Bytes
  import opened Utf8
  import opened JsonText
  import opened JsonCanonical
  import opened SpoolRecords

  /** Where a line went when it left the file. */
  datatype Fate = Delivered | Trimmed | Corrupt

  /** One call of a sink, for the line at `index` of the whole history. */
  datatype Call = Call(index: nat, record: Record, accepted: bool)

  datatype Appended = Queued | AlreadyQueued | TooLarge | Refused
  datatype Flushed = Sent(count: nat) | FlushRefused | Crashed

  predicate SameId(a: seq<byte>, b: seq<byte>) {
    var x, y := DecodeRecord(a), DecodeRecord(b);
    x.Some? && y.Some? && x.value.id.Some? && x.value.id == y.value.id
  }

  /** No identifier is queued twice. */
  predicate UniqueIds(queue: seq<seq<byte>>) {
    forall i, j | 0 <= i < j < |queue| :: !SameId(queue[i], queue[j])
  }

  predicate HasId(line: seq<byte>, id: Text) {
    var r := DecodeRecord(line);
    r.Some? && r.value.id == Some(id)
  }

  predicate Holds(line: seq<byte>, id: Text, event: Json) {
    DecodeRecord(line) == Some(Record(Some(id), event))
  }

  /** Every call passed on exactly what its line holds. */
  predicate Faithful(calls: seq<Call>, lines: seq<seq<byte>>) {
    forall c | c in calls :: c.index < |lines| && DecodeRecord(lines[c.index]) == Some(c.record)
  }

  predicate Accepted(calls: seq<Call>, index: nat) {
    exists c | c in calls :: c.index == index && c.accepted
  }

  /** A line is gone for a reason: a sink took it, it did not parse, or it was trimmed. */
  predicate Explained(fates: seq<Fate>, calls: seq<Call>, lines: seq<seq<byte>>) {
    && |fates| <= |lines|
    && (forall i | 0 <= i < |fates| && fates[i] == Delivered :: Accepted(calls, i))
    && (forall i | 0 <= i < |fates| && fates[i] == Corrupt :: DecodeRecord(lines[i]).None?)
  }

  /** Calls in the order of the lines. */
  predicate Ordered(calls: seq<Call>, least: nat) {
    && (forall i, j | 0 <= i < j < |calls| :: calls[i].index < calls[j].index)
    && (forall c | c in calls :: least <= c.index)
  }

  /** Dropping the first k lines is the least that makes room for `need` bytes. */
  predicate LeastTrim(queue: seq<seq<byte>>, k: nat, need: nat, maxBytes: nat) {
    && k <= |queue|
    && |Join(queue[k..])| + need <= maxBytes
    && (k > 0 ==> |Join(queue[k - 1..])| + need > maxBytes)
  }

  function Concat(parts: seq<seq<byte>>): seq<byte> {
    if parts == [] then [] else parts[0] + Concat(parts[1..])
  }

  function TotalLength(parts: seq<seq<byte>>): nat {
    if parts == [] then 0 else |parts[0]| + TotalLength(parts[1..])
  }

  lemma {:induction false} TerminatedHold(queue: seq<seq<byte>>)
    ensures Concat(Terminated(queue)) == Join(queue)
    ensures TotalLength(Terminated(queue)) == |Join(queue)|
    ensures |Terminated(queue)| == |queue|
  {
    if queue != [] {
      TerminatedHold(queue[1..]);
    }
  }

  lemma DropFirst(queue: seq<seq<byte>>, k: nat)
    requires k < |queue|
    ensures Terminated(queue[k..]) == [queue[k] + [LF]] + Terminated(queue[k + 1..])
    ensures |Join(queue[k..])| == |queue[k]| + 1 + |Join(queue[k + 1..])|
  {
    assert queue[k..][1..] == queue[k + 1..];
  }

  lemma CleanSuffix(lines: seq<seq<byte>>, k: nat)
    requires Clean(lines) && k <= |lines|
    ensures Clean(lines[k..])
  {
  }

  lemma UniqueSuffix(queue: seq<seq<byte>>, k: nat)
    requires UniqueIds(queue) && k <= |queue|
    ensures UniqueIds(queue[k..])
  {
    hide SameId;
    forall i, j | 0 <= i < j < |queue[k..]| ensures !SameId(queue[k..][i], queue[k..][j]) {
      assert !SameId(queue[i + k], queue[j + k]);
    }
  }

  lemma UniqueSnoc(queue: seq<seq<byte>>, line: seq<byte>, id: Text)
    requires UniqueIds(queue) && HasId(line, id) && forall q | q in queue :: !HasId(q, id)
    ensures UniqueIds(queue + [line])
  {
    hide DecodeRecord;
    var all := queue + [line];
    forall i, j | 0 <= i < j < |all| ensures !SameId(all[i], all[j]) {
      if j == |queue| {
        assert queue[i] in queue;
      } else {
        assert !SameId(queue[i], queue[j]);
      }
    }
  }

  lemma HistoryGrows(fates: seq<Fate>, calls: seq<Call>, lines: seq<seq<byte>>, line: seq<byte>)
    requires Faithful(calls, lines) && Explained(fates, calls, lines)
    ensures Faithful(calls, lines + [line]) && Explained(fates, calls, lines + [line])
  {
    hide DecodeRecord;
  }

  function TrimmedFates(k: nat): (r: seq<Fate>)
    ensures |r| == k && forall i | 0 <= i < k :: r[i] == Trimmed
  {
    seq(k, _ => Trimmed)
  }

  class OfflineSpool {
    const maxBytes: nat
    var file: seq<byte>
    var dropped: nat
    var corrupt: nat
    /** Every line the file ever held, in order; the first |fates| have left it. */
    ghost var lines: seq<seq<byte>>
    ghost var fates: seq<Fate>
    ghost var calls: seq<Call>

    ghost predicate Valid()
      reads this
    {
      && Clean(lines)
      && Explained(fates, calls, lines)
      && Faithful(calls, lines)
      && file == Join(lines[|fates|..])
      && UniqueIds(lines[|fates|..])
    }

    ghost function Queue(): seq<seq<byte>>
      requires |fates| <= |lines|
      reads this
    {
      lines[|fates|..]
    }

    /** A spool over an existing file; its lines may be records, legacy JSON or garbage. */
    constructor (existing: seq<seq<byte>>, maxBytes: nat)
      requires maxBytes >= 1024 && Clean(existing) && UniqueIds(existing)
      ensures Valid() && lines == existing && fates == [] && calls == []
      ensures this.maxBytes == maxBytes && dropped == 0 && corrupt == 0
    {
      this.maxBytes := maxBytes;
      file, dropped, corrupt := Join(existing), 0, 0;
      lines, fates, calls := existing, [], [];
      new;
      assert lines[|fates|..] == existing;
    }

    /** The queued line that already carries a supplied identifier, if any. */
    method FindId(id: Text) returns (found: Option<Json>)
      requires Valid()
      ensures found.None? ==> forall q | q in Queue() :: !HasId(q, id)
      ensures found.Some? ==> exists q | q in Queue() :: Holds(q, id, found.value)
    {
      hide DecodeRecord, Join, SplitLines;
      CleanSuffix(lines, |fates|);
      SplitUndoesJoin(Queue());
      var records := SplitLines(file);
      var i := 0;
      while i < |records|
        invariant i <= |records| && records == Queue()
        invariant forall k | 0 <= k < i :: !HasId(records[k], id)
      {
        var r := DecodeRecord(records[i]);
        if r.Some? && r.value.id == Some(id) {
          assert Holds(records[i], id, r.value.event) && records[i] in records;
          return Some(r.value.event);
        }
        i := i + 1;
      }
      found := None;
    }

    /** Drops whole lines from the front until the new one fits. */
    method Trim(need: nat) returns (kept: seq<byte>, ghost k: nat)
      requires Valid() && need <= maxBytes
      modifies `dropped
      ensures LeastTrim(Queue(), k, need, maxBytes)
      ensures kept == Join(Queue()[k..]) && dropped == old(dropped) + k
    {
      hide KeepEnds, Join, Concat, TotalLength, Terminated, UniqueIds, Accepted, Faithful;
      ghost var queue := Queue();
      CleanSuffix(lines, |fates|);
      SplitUndoesJoin(queue);
      TerminatedHold(queue);
      var parts := KeepEnds(file);
      var total := TotalLength(parts);
      var count := 0;
      assert queue[0..] == queue;
      while parts != [] && total + need > maxBytes
        invariant count <= |queue| && |parts| == |queue| - count && dropped == old(dropped)
        invariant parts == Terminated(queue[count..]) && total == |Join(queue[count..])|
        invariant count > 0 ==> |Join(queue[count - 1..])| + need > maxBytes
        decreases |parts|
      {
        DropFirst(queue, count);
        TerminatedHold(queue[count + 1..]);
        total := total - |parts[0]|;
        parts := parts[1..];
        count := count + 1;
      }
      dropped := dropped + count;
      k := count;
      TerminatedHold(queue[k..]);
      assert k == |queue| ==> |Join(queue[k..])| == 0 by { EmptyJoin(); assert k == |queue| ==> queue[k..] == []; }
      kept := Concat(parts);
    }

    ghost method Remember(line: seq<byte>, k: nat)
      requires |fates| <= |lines| && k <= |Queue()|
      modifies `lines, `fates
      ensures lines == old(lines) + [line] && fates == old(fates) + TrimmedFates(k)
    {
      lines, fates := lines + [line], fates + TrimmedFates(k);
    }

    /** The new line at the end of the file, older ones dropped only to make room. */
    method Enqueue(text: seq<byte>, ghost id: Text) returns (ghost k: nat)
      requires Valid() && |text| + 1 <= maxBytes && CleanLine(text) && HasId(text, id)
      requires forall q | q in Queue() :: !HasId(q, id)
      modifies `file, `dropped, `lines, `fates
      ensures Valid() && lines == old(lines) + [text]
      ensures k <= |old(Queue())| && fates == old(fates) + TrimmedFates(k) && dropped == old(dropped) + k
      ensures if |old(file)| + |text| + 1 <= maxBytes then k == 0 else LeastTrim(old(Queue()), k, |text| + 1, maxBytes)
      ensures |file| <= maxBytes
    {
      hide DecodeRecord, Join, HasId;
      ghost var queue := Queue();
      var line := text + [LF];
      k := 0;
      if |file| + |line| > maxBytes {
        var kept;
        kept, k := Trim(|line|);
        file := kept + line;
      } else {
        assert queue[0..] == queue;
        file := file + line;
      }
      JoinSnoc(queue[k..], text);
      Extend(text, id, k);
      Remember(text, k);
    }

    /** What enqueueing does to the invariant, before the history is updated. */
    lemma Extend(text: seq<byte>, id: Text, k: nat)
      requires Clean(lines) && Explained(fates, calls, lines) && Faithful(calls, lines)
      requires UniqueIds(lines[|fates|..]) && k <= |lines| - |fates|
      requires CleanLine(text) && HasId(text, id) && forall q | q in lines[|fates|..] :: !HasId(q, id)
      ensures Clean(lines + [text])
      ensures Explained(fates + TrimmedFates(k), calls, lines + [text]) && Faithful(calls, lines + [text])
      ensures (lines + [text])[|fates| + k..] == lines[|fates|..][k..] + [text]
      ensures UniqueIds(lines[|fates|..][k..] + [text])
    {
      hide DecodeRecord, HasId, Accepted;
      HistoryGrows(fates, calls, lines, text);
      UniqueSuffix(lines[|fates|..], k);
      UniqueSnoc(lines[|fates|..][k..], text, id);
    }

    /** append.  Without a supplied identifier `generated` is what secrets.token_hex
        returns; that it repeats no queued identifier is a premise. */
    method Append(event: Json, eventId: Option<Text>, generated: Text) returns (r: Appended)
      requires Valid() && Dicts(event)
      requires eventId.None? ==> ValidId(generated) && forall q | q in Queue() :: !HasId(q, generated)
      modifies `file, `dropped, `lines, `fates
      ensures Valid()
      ensures r.Queued? ==>
                var id := GetOr(eventId, generated);
                && ValidId(id) && EncodeRecord(event, id).Some?
                && lines == old(lines) + [EncodeRecord(event, id).value]
                && (forall q | q in old(Queue()) :: !HasId(q, id))
                && exists k: nat ::
                     && k <= |old(Queue())| && fates == old(fates) + TrimmedFates(k) && dropped == old(dropped) + k
                     && if |old(file)| + |EncodeRecord(event, id).value| + 1 <= maxBytes then k == 0
                        else LeastTrim(old(Queue()), k, |EncodeRecord(event, id).value| + 1, maxBytes)
      ensures r.Queued? ==> |file| <= maxBytes
      ensures !r.Queued? ==> lines == old(lines) && fates == old(fates) && file == old(file)
      ensures dropped == old(dropped) + (if r.TooLarge? then 1 else |fates| - |old(fates)|)
      ensures r.TooLarge? ==> var id := GetOr(eventId, generated);
                ValidId(id) && EncodeRecord(event, id).Some? && |EncodeRecord(event, id).value| + 1 > maxBytes
      ensures r.AlreadyQueued? ==> eventId.Some? && exists q, e |
                q in Queue() && Holds(q, eventId.value, e) :: CanonicalBytes(e) == CanonicalBytes(event)
      ensures r.Refused? ==>
                || (eventId.Some? && !ValidId(eventId.value))
                || !Scalar(event)
                || |file| > maxBytes
                || (eventId.Some? && exists q, e |
                      q in Queue() && Holds(q, eventId.value, e) :: CanonicalBytes(e) != CanonicalBytes(event))
    {
      hide DecodeRecord, EncodeRecord, Explained, Faithful, Join, UniqueIds, CanonicalBytes, ValidId, LeastTrim;
      if eventId.Some? && !ValidId(eventId.value) { return Refused; }
      var id := GetOr(eventId, generated);
      RecordExists(event, id);
      var encoded := EncodeRecord(event, id);
      if encoded.None? { return Refused; }
      var text := encoded.value;
      if |text| + 1 > maxBytes {
        dropped := dropped + 1;
        return TooLarge;
      }
      if |file| > maxBytes { return Refused; }
      if eventId.Some? {
        var found := FindId(id);
        if found.Some? {
          return if CanonicalBytes(found.value) == CanonicalBytes(event) then AlreadyQueued else Refused;
        }
      }
      RecordRoundTrip(event, id);
      RecordIsClean(event, id);
      ghost var k := Enqueue(text, id);
      r := Queued;
    }

    /** One call of the sink on the line at `index`; the sink may raise. */
    method Deliver(line: seq<byte>, record: Record, ghost index: nat) returns (accepted: bool)
      requires index < |lines| && lines[index] == line && DecodeRecord(line) == Some(record)
      requires Faithful(calls, lines)
      modifies `calls
      ensures calls == old(calls) + [Call(index, record, accepted)] && Faithful(calls, lines)
      ensures if accepted then Accepted(calls, index) else LastFailed(calls, index)
    {
      hide DecodeRecord;
      accepted := *;
      calls := calls + [Call(index, record, accepted)];
      assert Call(index, record, accepted) in calls;
    }

    /** The loop of a flush.  `index` is the first line it did not get past. */
    method SendQueued(records: seq<seq<byte>>, maxEvents: Option<nat>)
      returns (crashed: bool, index: nat, sent: nat, ghost gone: seq<Fate>)
      requires |fates| <= |lines| && records == lines[|fates|..] && Faithful(calls, lines)
      modifies `corrupt, `calls
      ensures old(calls) <= calls && Faithful(calls, lines) && Ordered(calls[|old(calls)|..], |fates|)
      ensures index == |gone| <= |records| && Reasons(gone, |fates|, calls, lines)
      ensures sent == CountFate(gone, Delivered) && (maxEvents.Some? ==> sent <= maxEvents.value)
      ensures corrupt == old(corrupt) + CountFate(gone, Corrupt)
      ensures !crashed ==> index == |records| || (maxEvents.Some? && sent == maxEvents.value) || LastFailed(calls, |fates| + index)
    {
      hide DecodeRecord, Accepted, Reasons, Faithful, Ordered, Below, LastFailed, CountFate;
      ghost var base, before := |fates|, calls;
      var failed := false;
      crashed, index, sent, gone := false, 0, 0, [];
      NothingYet(base, calls, lines);
      assert calls[|before|..] == [];
      while index < |records| && !(maxEvents.Some? && sent >= maxEvents.value) && !failed
        invariant index == |gone| <= |records|
        invariant before <= calls && Faithful(calls, lines)
        invariant Ordered(calls[|before|..], base)
        invariant !failed ==> Below(calls[|before|..], base + index)
        invariant Reasons(gone, base, calls, lines)
        invariant corrupt == old(corrupt) + CountFate(gone, Corrupt)
        invariant sent == CountFate(gone, Delivered) && (maxEvents.Some? ==> sent <= maxEvents.value)
        invariant failed ==> LastFailed(calls, base + index)
        decreases |records| - index, !failed
      {
        if * { crashed := true; return; }
        var record := DecodeRecord(records[index]);
        if record.None? {
          corrupt := corrupt + 1;
          ReasonsSnoc(gone, Corrupt, base, calls, calls, lines);
          BelowGrows(calls[|before|..], base + index);
          gone := gone + [Corrupt];
          index := index + 1;
        } else {
          ghost var earlier := calls;
          var accepted := Deliver(records[index], record.value, base + index);
          OrderedSnoc(earlier, calls, |before|, base, base + index);
          if accepted {
            ReasonsSnoc(gone, Delivered, base, earlier, calls, lines);
            gone := gone + [Delivered];
            sent := sent + 1;
            index := index + 1;
          } else {
            ReasonsKeep(gone, base, earlier, calls, lines);
            failed := true;
          }
        }
      }
    }

    /** flush and flush_records: the sink sees queued records oldest first, at most
        `maxEvents` of them, until one call fails.  A crash may come between any
        two calls or before the rewrite; the calls made by then cannot be undone. */
    method Flush(maxEvents: Option<nat>) returns (r: Flushed)
      requires Valid()
      modifies `file, `corrupt, `fates, `calls
      ensures Valid()
      ensures r.FlushRefused? ==> |file| > maxBytes && calls == old(calls) && corrupt == old(corrupt)
      ensures !r.Sent? ==> file == old(file) && fates == old(fates)
      ensures |file| <= |old(file)|
      ensures old(calls) <= calls && Ordered(calls[|old(calls)|..], |old(fates)|)
      ensures old(fates) <= fates && Trimmed !in fates[|old(fates)|..]
      ensures r.Sent? ==> r.count == CountFate(fates[|old(fates)|..], Delivered) && (maxEvents.Some? ==> r.count <= maxEvents.value)
      ensures r.Sent? ==> corrupt == old(corrupt) + CountFate(fates[|old(fates)|..], Corrupt)
      ensures r.Crashed? ==> exists gone ::
                && Reasons(gone, |fates|, calls, lines) && corrupt == old(corrupt) + CountFate(gone, Corrupt)
      ensures r.Sent? ==> Queue() == [] || (maxEvents.Some? && r.count == maxEvents.value) || LastFailed(calls, |fates|)
    {
      hide DecodeRecord, Join, SplitLines, Accepted, CleanLine, Ordered, LastFailed, CountFate, UniqueIds;
      NothingYet(|fates|, calls, lines);
      assert calls[|calls|..] == [] && fates[|fates|..] == [];
      if file == [] { EmptyFile(); return Sent(0); }
      if |file| > maxBytes { return FlushRefused; }
      ghost var base := |fates|;
      CleanSuffix(lines, base);
      SplitUndoesJoin(Queue());
      var records := SplitLines(file);
      var crashed, index, sent, gone := SendQueued(records, maxEvents);
      ExplainedKeeps(fates, old(calls), calls, lines);
      if crashed { return Crashed; }
      if * { return Crashed; }
      var remaining := records[index..];
      SuffixIsShorter(records, index);
      Forget(gone);
      file := Join(remaining);
      fates := fates + gone;
      assert fates[base..] == gone;
      r := Sent(sent);
    }

    /** Where every line ever held is now: still queued, in its place, or gone for
        a reason; a line that parses is never lost as unreadable. */
    lemma Conservation(i: nat)
      requires Valid() && i < |lines|
      ensures i >= |fates| ==> i - |fates| < |SplitLines(file)| && SplitLines(file)[i - |fates|] == lines[i]
      ensures i < |fates| && fates[i] == Delivered ==> Accepted(calls, i)
      ensures i < |fates| && DecodeRecord(lines[i]).Some? ==> fates[i] == Delivered || fates[i] == Trimmed
    {
      hide DecodeRecord, Join, SplitLines, Accepted, CleanLine, SameId;
      CleanSuffix(lines, |fates|);
      SplitUndoesJoin(Queue());
    }

    /** Lines sent, trimmed, unreadable and queued add up to the lines admitted. */
    lemma LinesAddUp()
      requires Valid()
      ensures CountFate(fates, Delivered) + CountFate(fates, Trimmed) + CountFate(fates, Corrupt) + |SplitLines(file)| == |lines|
    {
      hide DecodeRecord, Join, SplitLines, Accepted, CleanLine, SameId;
      CleanSuffix(lines, |fates|);
      SplitUndoesJoin(Queue());
      FatesAddUp(fates);
    }

    /** A record sent again after a crash is sent with the same identifier and event. */
    lemma RedeliveryIsIdentical(a: Call, b: Call)
      requires Valid() && a in calls && b in calls && a.index == b.index
      ensures a.record == b.record
    {
      hide DecodeRecord, Join, Accepted, CleanLine, SameId;
      assert DecodeRecord(lines[a.index]) == Some(a.record);
      assert DecodeRecord(lines[b.index]) == Some(b.record);
    }

    lemma EmptyFile()
      requires Valid() && file == []
      ensures Queue() == []
    {
    }

    /** What a flush that gets as far as its rewrite does to the invariant. */
    lemma Forget(gone: seq<Fate>)
      requires Explained(fates, calls, lines) && UniqueIds(lines[|fates|..])
      requires |fates| + |gone| <= |lines| && Reasons(gone, |fates|, calls, lines)
      ensures Explained(fates + gone, calls, lines)
      ensures lines[|fates|..][|gone|..] == lines[|fates + gone|..]
      ensures UniqueIds(lines[|fates + gone|..])
    {
      hide DecodeRecord, Accepted, SameId;
      UniqueSuffix(lines[|fates|..], |gone|);
    }
  }

  function CountFate(fates: seq<Fate>, f: Fate): nat {
    if fates == [] then 0
    else CountFate(fates[..|fates| - 1], f) + if fates[|fates| - 1] == f then 1 else 0
  }

  lemma {:induction false} FatesAddUp(fates: seq<Fate>)
    ensures CountFate(fates, Delivered) + CountFate(fates, Trimmed) + CountFate(fates, Corrupt) == |fates|
  {
    if fates != [] {
      FatesAddUp(fates[..|fates| - 1]);
    }
  }

  /** Lines that a flush lets go: delivered or unreadable, never trimmed. */
  predicate Reasons(gone: seq<Fate>, base: nat, calls: seq<Call>, lines: seq<seq<byte>>) {
    && base + |gone| <= |lines|
    && Trimmed !in gone
    && (forall k | 0 <= k < |gone| && gone[k] == Delivered :: Accepted(calls, base + k))
    && (forall k | 0 <= k < |gone| && gone[k] == Corrupt :: DecodeRecord(lines[base + k]).None?)
  }

  lemma AcceptedKeeps(before: seq<Call>, calls: seq<Call>, index: nat)
    requires before <= calls && Accepted(before, index)
    ensures Accepted(calls, index)
  {
    var c :| c in before && c.index == index && c.accepted;
    assert c in calls;
  }

  lemma ReasonsKeep(gone: seq<Fate>, base: nat, before: seq<Call>, calls: seq<Call>, lines: seq<seq<byte>>)
    requires Reasons(gone, base, before, lines) && before <= calls
    ensures Reasons(gone, base, calls, lines)
  {
    hide Accepted, DecodeRecord;
    forall k | 0 <= k < |gone| && gone[k] == Delivered ensures Accepted(calls, base + k) {
      AcceptedKeeps(before, calls, base + k);
    }
  }

  lemma NothingYet(base: nat, calls: seq<Call>, lines: seq<seq<byte>>)
    requires base <= |lines|
    ensures Reasons([], base, calls, lines) && Ordered([], base) && Below([], base)
    ensures forall f :: CountFate([], f) == 0
  {
  }

  lemma BelowGrows(calls: seq<Call>, bound: nat)
    requires Below(calls, bound)
    ensures Below(calls, bound + 1)
  {
  }

  lemma CountSnoc(gone: seq<Fate>, fate: Fate, f: Fate)
    ensures CountFate(gone + [fate], f) == CountFate(gone, f) + if fate == f then 1 else 0
  {
    assert (gone + [fate])[..|gone|] == gone;
  }

  lemma ReasonsSnoc(gone: seq<Fate>, fate: Fate, base: nat, before: seq<Call>, calls: seq<Call>, lines: seq<seq<byte>>)
    requires Reasons(gone, base, before, lines) && before <= calls
    requires base + |gone| < |lines| && fate != Trimmed
    requires fate == Delivered ==> Accepted(calls, base + |gone|)
    requires fate == Corrupt ==> DecodeRecord(lines[base + |gone|]).None?
    ensures Reasons(gone + [fate], base, calls, lines)
    ensures forall f :: CountFate(gone + [fate], f) == CountFate(gone, f) + if fate == f then 1 else 0
  {
    hide Accepted, DecodeRecord, CountFate;
    ReasonsKeep(gone, base, before, calls, lines);
    forall f { CountSnoc(gone, fate, f); }
    var all := gone + [fate];
    forall k | 0 <= k < |all|
      ensures all[k] == Delivered ==> Accepted(calls, base + k)
      ensures all[k] == Corrupt ==> DecodeRecord(lines[base + k]).None?
    {
      assert k < |gone| ==> all[k] == gone[k];
    }
  }

  lemma ExplainedKeeps(fates: seq<Fate>, before: seq<Call>, calls: seq<Call>, lines: seq<seq<byte>>)
    requires Explained(fates, before, lines) && before <= calls
    ensures Explained(fates, calls, lines)
  {
    hide Accepted, DecodeRecord;
    forall i | 0 <= i < |fates| && fates[i] == Delivered ensures Accepted(calls, i) {
      AcceptedKeeps(before, calls, i);
    }
  }

  lemma OrderedSnoc(before: seq<Call>, calls: seq<Call>, n: nat, base: nat, bound: nat)
    requires n <= |before| && Ordered(before[n..], base) && Below(before[n..], bound) && base <= bound
    requires |calls| == |before| + 1 && calls[..|before|] == before && calls[|before|].index == bound
    ensures Ordered(calls[n..], base) && Below(calls[n..], bound + 1)
  {
    assert calls[n..] == before[n..] + [calls[|before|]];
    forall i | 0 <= i < |before[n..]| ensures before[n..][i].index < bound {
      assert before[n..][i] in before[n..];
    }
  }

  predicate Below(calls: seq<Call>, bound: nat) {
    forall c | c in calls :: c.index < bound
  }

  predicate LastFailed(calls: seq<Call>, index: nat) {
    calls != [] && calls[|calls| - 1].index == index && !calls[|calls| - 1].accepted
  }

  lemma SuffixIsShorter(lines: seq<seq<byte>>, k: nat)
    requires k <= |lines|
    ensures |Join(lines[k..])| <= |Join(lines)|
  {
    hide Join;
    JoinConcat(lines[..k], lines[k..]);
    assert lines == lines[..k] + lines[k..];
  }

  lemma EmptyJoin()
    ensures Join([]) == []
  {
  }
}
