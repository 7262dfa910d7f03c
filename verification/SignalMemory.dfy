/** The rolling signal memory: a deque of (tick, signal), pruned at the front, merged per strategy. */
module SignalMemory {
  import opened Prelude
  import opened Conviction

  datatype Entry = Entry(tick: int, signal: Signal)

  ghost predicate TickSorted(log: seq<Entry>) {
    forall i, j :: 0 <= i < j < |log| ==> log[i].tick <= log[j].tick
  }

  function Tag(tick: int, signals: seq<Signal>): seq<Entry> {
    seq(|signals|, i requires 0 <= i < |signals| => Entry(tick, signals[i]))
  }

  /** Pop from the front while the front is too old: the only pruning the code does. */
  function Prune(buffer: seq<Entry>, cutoff: int): seq<Entry> {
    if buffer != [] && buffer[0].tick <= cutoff then Prune(buffer[1..], cutoff) else buffer
  }

  /** What pruning is meant to leave: every entry younger than the cutoff, wherever it sits. */
  function Within(log: seq<Entry>, cutoff: int): seq<Entry> {
    Filter(log, (e: Entry) => e.tick > cutoff)
  }

  lemma WithinMembers(log: seq<Entry>, cutoff: int)
    ensures forall e :: e in Within(log, cutoff) <==> e in log && e.tick > cutoff
  {
    FilterMembers(log, (e: Entry) => e.tick > cutoff);
  }

  lemma {:induction false} WithinAll(log: seq<Entry>, cutoff: int)
    requires forall e :: e in log ==> e.tick > cutoff
    ensures Within(log, cutoff) == log
  {
    if log != [] {
      WithinAll(log[..|log| - 1], cutoff);
    }
  }

  lemma {:induction false} WithinNone(log: seq<Entry>, cutoff: int)
    requires forall e :: e in log ==> e.tick <= cutoff
    ensures Within(log, cutoff) == []
  {
    if log != [] {
      WithinNone(log[..|log| - 1], cutoff);
    }
  }

  /** Front-only popping removes every expired entry as long as ticks never decrease. */
  lemma {:induction false} PruneIsWithin(log: seq<Entry>, cutoff: int)
    requires TickSorted(log)
    ensures Prune(log, cutoff) == Within(log, cutoff)
  {
    if log == [] {
    } else if log[0].tick <= cutoff {
      PruneIsWithin(log[1..], cutoff);
      assert log == [log[0]] + log[1..];
      FilterConcat([log[0]], log[1..], (e: Entry) => e.tick > cutoff);
    } else {
      WithinAll(log, cutoff);
    }
  }

  lemma {:induction false} WithinTwice(log: seq<Entry>, older: int, cutoff: int)
    requires older <= cutoff
    ensures Within(Within(log, older), cutoff) == Within(log, cutoff)
  {
    if log != [] {
      var init, last := log[..|log| - 1], log[|log| - 1];
      WithinTwice(init, older, cutoff);
      if last.tick > older {
        FilterAppend(Within(init, older), last, (e: Entry) => e.tick > cutoff);
      }
    }
  }

  lemma {:induction false} WithinSorted(log: seq<Entry>, cutoff: int)
    requires TickSorted(log)
    ensures TickSorted(Within(log, cutoff))
  {
    if log != [] {
      var init, last := log[..|log| - 1], log[|log| - 1];
      WithinSorted(init, cutoff);
      WithinMembers(init, cutoff);
      forall e | e in Within(init, cutoff) ensures e.tick <= last.tick {
        var k :| 0 <= k < |init| && init[k] == e;
        assert log[k] == e;
      }
    }
  }

  /** Appending this call's signals and pruning keeps the buffer equal to the recent part of the log. */
  lemma PushRefinesLog(log: seq<Entry>, older: int, tick: int, signals: seq<Signal>, cutoff: int)
    requires TickSorted(log)
    requires forall e :: e in log ==> e.tick <= tick
    requires older <= cutoff
    ensures TickSorted(log + Tag(tick, signals))
    ensures forall e :: e in log + Tag(tick, signals) ==> e.tick <= tick
    ensures Prune(Within(log, older) + Tag(tick, signals), cutoff) ==
            Within(log + Tag(tick, signals), cutoff)
  {
    var arrivals := Tag(tick, signals);
    WithinSorted(log, older);
    WithinMembers(log, older);
    assert TickSorted(Within(log, older) + arrivals) by {
      forall e | e in Within(log, older) ensures e.tick <= tick {}
    }
    PruneIsWithin(Within(log, older) + arrivals, cutoff);
    FilterConcat(Within(log, older), arrivals, (e: Entry) => e.tick > cutoff);
    FilterConcat(log, arrivals, (e: Entry) => e.tick > cutoff);
    WithinTwice(log, older, cutoff);
  }

  // ---- Latest signal per strategy ------------------------------------------

  /** Reference: the last entry of a strategy. */
  function LatestOf(log: seq<Entry>, strategy: string): Option<Signal> {
    if log == [] then None
    else if log[|log| - 1].signal.strategy == strategy then Some(log[|log| - 1].signal)
    else LatestOf(log[..|log| - 1], strategy)
  }

  /** Dictionary assignment: a known key keeps its place and takes the new value. */
  function Upsert(seen: seq<Signal>, s: Signal): seq<Signal> {
    if seen == [] then [s]
    else if seen[0].strategy == s.strategy then [s] + seen[1..]
    else [seen[0]] + Upsert(seen[1..], s)
  }

  function Latest(log: seq<Entry>): seq<Signal> {
    if log == [] then [] else Upsert(Latest(log[..|log| - 1]), log[|log| - 1].signal)
  }

  ghost predicate DistinctStrategies(signals: seq<Signal>) {
    forall i, j :: 0 <= i < j < |signals| ==> signals[i].strategy != signals[j].strategy
  }

  function FirstAppearance(names: seq<string>): seq<string> {
    if names == [] then []
    else
      var seen := FirstAppearance(names[..|names| - 1]);
      if names[|names| - 1] in seen then seen else seen + [names[|names| - 1]]
  }

  function EntryNames(log: seq<Entry>): seq<string> {
    seq(|log|, i requires 0 <= i < |log| => log[i].signal.strategy)
  }

  lemma NamesDistinct(signals: seq<Signal>)
    ensures DistinctStrategies(signals) <==>
            forall i, j :: 0 <= i < j < |signals| ==> StrategyNames(signals)[i] != StrategyNames(signals)[j]
  {
    assert forall i :: 0 <= i < |signals| ==> signals[i].strategy == StrategyNames(signals)[i];
  }

  lemma {:induction false} UpsertNames(seen: seq<Signal>, s: Signal)
    ensures StrategyNames(Upsert(seen, s)) ==
            if s.strategy in StrategyNames(seen) then StrategyNames(seen) else StrategyNames(seen) + [s.strategy]
  {
    if seen != [] {
      var tail := Upsert(seen[1..], s);
      assert StrategyNames(seen) == [seen[0].strategy] + StrategyNames(seen[1..]);
      if seen[0].strategy == s.strategy {
        assert StrategyNames([s] + seen[1..]) == [s.strategy] + StrategyNames(seen[1..]);
      } else {
        UpsertNames(seen[1..], s);
        assert StrategyNames([seen[0]] + tail) == [seen[0].strategy] + StrategyNames(tail);
      }
    }
  }

  lemma {:induction false} UpsertMembers(seen: seq<Signal>, s: Signal, x: Signal)
    requires DistinctStrategies(seen)
    ensures x in Upsert(seen, s) <==> x == s || (x in seen && x.strategy != s.strategy)
  {
    if seen != [] {
      assert seen == [seen[0]] + seen[1..];
      if seen[0].strategy == s.strategy {
        assert x in seen[1..] ==> x.strategy != s.strategy;
      } else {
        UpsertMembers(seen[1..], s, x);
      }
    }
  }

  /** The merged list is exactly the last signal of every strategy, in order of first appearance. */
  lemma {:induction false} LatestCorrect(log: seq<Entry>)
    ensures DistinctStrategies(Latest(log))
    ensures StrategyNames(Latest(log)) == FirstAppearance(EntryNames(log))
    ensures forall s :: s in Latest(log) <==> LatestOf(log, s.strategy) == Some(s)
  {
    if log != [] {
      var init, last := log[..|log| - 1], log[|log| - 1].signal;
      LatestCorrect(init);
      UpsertNames(Latest(init), last);
      assert EntryNames(log)[..|log| - 1] == EntryNames(init);
      forall x ensures x in Latest(log) <==> x == last || (x in Latest(init) && x.strategy != last.strategy) {
        UpsertMembers(Latest(init), last, x);
      }
      NamesDistinct(Latest(init));
      NamesDistinct(Latest(log));
    }
  }

  // ---- In-place stop adjustment --------------------------------------------

  /** The selected Signal object is the last buffered one of its strategy; the AI may overwrite its stop. */
  function AdjustLatest(log: seq<Entry>, strategy: string, stop: real): (r: seq<Entry>)
    ensures |r| == |log|
    ensures forall i :: 0 <= i < |log| ==>
              r[i].tick == log[i].tick && r[i].signal == log[i].signal.(stop := r[i].signal.stop)
  {
    if log == [] then []
    else
      var init, last := log[..|log| - 1], log[|log| - 1];
      if last.signal.strategy == strategy then init + [last.(signal := last.signal.(stop := stop))]
      else AdjustLatest(init, strategy, stop) + [last]
  }

  /** Only the last entry of the strategy changes, and only its stop. */
  lemma {:induction false} AdjustLatestExact(log: seq<Entry>, strategy: string, stop: real, i: nat)
    requires i < |log|
    ensures var last := log[i].signal.strategy == strategy && forall j :: i < j < |log| ==> log[j].signal.strategy != strategy;
            AdjustLatest(log, strategy, stop)[i] ==
            if last then log[i].(signal := log[i].signal.(stop := stop)) else log[i]
  {
    var n := |log| - 1;
    if i < n && log[n].signal.strategy != strategy {
      AdjustLatestExact(log[..n], strategy, stop, i);
    }
  }

  /** Overwriting the stop inside the buffer is overwriting it in the log. */
  lemma {:induction false} AdjustWithin(log: seq<Entry>, cutoff: int, strategy: string, stop: real)
    requires TickSorted(log)
    requires LatestOf(Within(log, cutoff), strategy).Some?
    ensures Within(AdjustLatest(log, strategy, stop), cutoff) == AdjustLatest(Within(log, cutoff), strategy, stop)
  {
    if log != [] {
      var init, last := log[..|log| - 1], log[|log| - 1];
      var keep := (e: Entry) => e.tick > cutoff;
      if last.tick > cutoff {
        var kept := Within(init, cutoff);
        assert Within(log, cutoff) == kept + [last];
        assert (kept + [last])[..|kept|] == kept;
        if last.signal.strategy == strategy {
          FilterAppend(init, last.(signal := last.signal.(stop := stop)), keep);
        } else {
          AdjustWithin(init, cutoff, strategy, stop);
          FilterAppend(AdjustLatest(init, strategy, stop), last, keep);
        }
      } else {
        WithinNone(log, cutoff);
        assert false;
      }
    }
  }

  lemma AdjustKeepsOrder(log: seq<Entry>, strategy: string, stop: real, bound: int)
    requires TickSorted(log)
    requires forall e :: e in log ==> e.tick <= bound
    ensures TickSorted(AdjustLatest(log, strategy, stop))
    ensures forall e :: e in AdjustLatest(log, strategy, stop) ==> e.tick <= bound
  {
  }

  // ---- The two loops of the merge ------------------------------------------

  /** Append the new signals, then `popleft` while the front has expired. */
  method PushAndPrune(buffer: seq<Entry>, tick: int, signals: seq<Signal>, cutoff: int)
    returns (r: seq<Entry>)
    ensures r == Prune(buffer + Tag(tick, signals), cutoff)
  {
    r := buffer;
    for i := 0 to |signals|
      invariant r == buffer + Tag(tick, signals[..i])
    {
      r := r + [Entry(tick, signals[i])];
      assert Tag(tick, signals[..i + 1]) == Tag(tick, signals[..i]) + [Entry(tick, signals[i])];
    }
    assert signals[..|signals|] == signals;
    while r != [] && r[0].tick <= cutoff
      invariant Prune(r, cutoff) == Prune(buffer + Tag(tick, signals), cutoff)
      decreases |r|
    {
      r := r[1..];
    }
  }

  /** `list(seen.values())` for a dictionary with the given insertion order. */
  function Lookup(order: seq<string>, seen: map<string, Signal>): seq<Signal>
    requires forall k :: k in order ==> k in seen
  {
    if order == [] then []
    else
      assert forall k :: k in order[1..] ==> k in order;
      [seen[order[0]]] + Lookup(order[1..], seen)
  }

  ghost predicate Keyed(order: seq<string>, seen: map<string, Signal>) {
    && (forall k :: k in order ==> k in seen && seen[k].strategy == k)
    && (forall i, j :: 0 <= i < j < |order| ==> order[i] != order[j])
  }

  lemma {:induction false} LookupOthers(order: seq<string>, seen: map<string, Signal>, s: Signal)
    requires forall k :: k in order ==> k in seen
    requires s.strategy !in order
    ensures Lookup(order, seen[s.strategy := s]) == Lookup(order, seen)
  {
    if order != [] {
      assert forall k :: k in order[1..] ==> k in order;
      LookupOthers(order[1..], seen, s);
    }
  }

  lemma {:induction false} UpsertLookup(order: seq<string>, seen: map<string, Signal>, s: Signal)
    requires Keyed(order, seen)
    ensures var order' := if s.strategy in order then order else order + [s.strategy];
            Lookup(order', seen[s.strategy := s]) == Upsert(Lookup(order, seen), s)
  {
    if order == [] {
      assert [s.strategy][1..] == [];
    } else {
      assert forall k :: k in order[1..] ==> k in order;
      if order[0] == s.strategy {
        LookupOthers(order[1..], seen, s);
      } else {
        UpsertLookup(order[1..], seen, s);
        assert (order + [s.strategy])[1..] == order[1..] + [s.strategy];
      }
    }
  }

  /** The deduplication loop over an insertion-ordered dictionary. */
  method LatestByStrategy(buffer: seq<Entry>) returns (merged: seq<Signal>)
    ensures merged == Latest(buffer)
  {
    var order: seq<string>, seen: map<string, Signal> := [], map[];
    for i := 0 to |buffer|
      invariant Keyed(order, seen)
      invariant forall k :: k in seen ==> k in order
      invariant Lookup(order, seen) == Latest(buffer[..i])
    {
      var s := buffer[i].signal;
      UpsertLookup(order, seen, s);
      assert buffer[..i + 1][..i] == buffer[..i];
      if s.strategy !in seen {
        order := order + [s.strategy];
      }
      seen := seen[s.strategy := s];
    }
    assert buffer[..|buffer|] == buffer;
    merged := Lookup(order, seen);
  }
}
