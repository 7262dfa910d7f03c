/** Strategy signals and the ensemble conviction filter, in its live and its backtest form. */
module Conviction {
  import opened Prelude

  datatype Side = Buy | Sell {
    function Flip(): Side {
      if Buy? then Sell else Buy
    }
  }

  datatype Signal = Signal(
    symbol: string,
    strategy: string,
    side: Side,
    entry: real,
    stop: real,
    target: Option<real>,
    confidence: real)

  /** A missing target and a zero target are both no target. */
  predicate HasTarget(target: Option<real>) {
    target.Some? && target.value != 0.0
  }

  // ---- Specification -------------------------------------------------------

  function Strong(signals: seq<Signal>, minConfidence: real): seq<Signal> {
    Filter(signals, (s: Signal) => s.confidence >= minConfidence)
  }

  function OnSide(signals: seq<Signal>, side: Side): seq<Signal> {
    Filter(signals, (s: Signal) => s.side == side)
  }

  lemma StrongMembers(signals: seq<Signal>, minConfidence: real)
    ensures forall s :: s in Strong(signals, minConfidence) <==> s in signals && s.confidence >= minConfidence
  {
    FilterMembers(signals, (s: Signal) => s.confidence >= minConfidence);
  }

  lemma OnSideMembers(signals: seq<Signal>, side: Side)
    ensures forall s :: s in OnSide(signals, side) <==> s in signals && s.side == side
  {
    FilterMembers(signals, (s: Signal) => s.side == side);
  }

  lemma OnSideNext(signals: seq<Signal>, i: nat, side: Side)
    requires i < |signals|
    ensures OnSide(signals[..i + 1], side) ==
            OnSide(signals[..i], side) + if signals[i].side == side then [signals[i]] else []
  {
    assert signals[..i + 1][..i] == signals[..i];
  }

  function Confidences(signals: seq<Signal>): seq<real> {
    seq(|signals|, i requires 0 <= i < |signals| => signals[i].confidence)
  }

  function Average(signals: seq<Signal>): real
    requires signals != []
  {
    Sum(Confidences(signals)) / |signals| as real
  }

  /** Side a is strictly ahead of side b in (number of signals, average confidence). */
  predicate Beats(strong: seq<Signal>, a: Side, b: Side) {
    var forA, forB := OnSide(strong, a), OnSide(strong, b);
    |forA| > |forB| || (|forA| == |forB| != 0 && Average(forA) > Average(forB))
  }

  /** The side that arrived first keeps a complete tie. */
  function BestSide(strong: seq<Signal>): Side
    requires strong != []
  {
    var first := strong[0].side;
    if Beats(strong, first.Flip(), first) then first.Flip() else first
  }

  /** w sits at index k and is the first of the most confident signals. */
  predicate FirstMostConfident(signals: seq<Signal>, k: nat, w: Signal) {
    && k < |signals| && w == signals[k]
    && (forall j :: 0 <= j < |signals| ==> signals[j].confidence <= w.confidence)
    && (forall j :: 0 <= j < k ==> signals[j].confidence < w.confidence)
  }

  /** Python's `max(signals, key=confidence)`. */
  function MostConfident(signals: seq<Signal>): Signal
    requires signals != []
  {
    var n := |signals| - 1;
    if n == 0 then signals[0]
    else
      var best := MostConfident(signals[..n]);
      if signals[n].confidence > best.confidence then signals[n] else best
  }

  lemma {:induction false} MostConfidentIsFirst(signals: seq<Signal>) returns (k: nat)
    requires signals != []
    ensures FirstMostConfident(signals, k, MostConfident(signals))
  {
    var n := |signals| - 1;
    if n == 0 {
      k := 0;
    } else {
      k := MostConfidentIsFirst(signals[..n]);
      if signals[n].confidence > MostConfident(signals[..n]).confidence {
        k := n;
      }
    }
  }

  /** The one signal worth trading, if enough strategies agree on its side. */
  function Winner(signals: seq<Signal>, minAgreement: int, minConfidence: real): Option<Signal> {
    var strong := Strong(signals, minConfidence);
    if strong == [] then None
    else
      var side := BestSide(strong);
      var group := OnSide(strong, side);
      if |group| < minAgreement || group == [] then None else Some(MostConfident(group))
  }

  lemma OnSideOfHead(strong: seq<Signal>)
    requires strong != []
    ensures OnSide(strong, strong[0].side) != []
    ensures OnSide(strong, BestSide(strong)) != []
  {
    OnSideMembers(strong, strong[0].side);
    assert strong[0] in OnSide(strong, strong[0].side);
  }

  /** What a selected signal guarantees, and exactly when nothing is selected. */
  lemma WinnerSound(signals: seq<Signal>, minAgreement: int, minConfidence: real)
    ensures var strong := Strong(signals, minConfidence);
            match Winner(signals, minAgreement, minConfidence)
            case Some(w) =>
              && w in signals && w.confidence >= minConfidence
              && |OnSide(strong, w.side)| >= minAgreement
              && !Beats(strong, w.side.Flip(), w.side)
              && (forall s :: s in strong && s.side == w.side ==> s.confidence <= w.confidence)
            case None =>
              strong == [] || forall side :: |OnSide(strong, side)| < minAgreement
  {
    var strong := Strong(signals, minConfidence);
    if strong != [] {
      OnSideOfHead(strong);
      StrongMembers(signals, minConfidence);
      OnSideMembers(strong, BestSide(strong));
      var group := OnSide(strong, BestSide(strong));
      var w := MostConfident(group);
      var k := MostConfidentIsFirst(group);
      assert w in group && w in strong;
      forall s | s in strong && s.side == w.side
        ensures s.confidence <= w.confidence
      {
        assert s in group;
      }
    }
  }

  /** A side leads with more strong signals; between equally many the higher total confidence decides, and a complete
      tie goes to the side of the first strong signal. */
  ghost predicate Leads(strong: seq<Signal>, side: Side)
    requires strong != []
  {
    var own, other := OnSide(strong, side), OnSide(strong, side.Flip());
    var mine, theirs := Sum(Confidences(own)), Sum(Confidences(other));
    |own| > |other| || (|own| == |other| && (mine > theirs || (mine == theirs && strong[0].side == side)))
  }

  lemma AverageOrder(a: seq<Signal>, b: seq<Signal>)
    requires |a| == |b| != 0
    ensures Average(a) > Average(b) <==> Sum(Confidences(a)) > Sum(Confidences(b))
  {
    QuotientOrder(Sum(Confidences(a)), Sum(Confidences(b)), |a| as real);
  }

  lemma QuotientOrder(x: real, y: real, d: real)
    requires d > 0.0
    ensures x / d > y / d <==> x > y
  {
    assert x / d * d == x && y / d * d == y;
  }

  lemma BestSideLeads(strong: seq<Signal>, side: Side)
    requires strong != []
    ensures side == BestSide(strong) <==> Leads(strong, side)
  {
    OnSideOfHead(strong);
    var first := strong[0].side;
    var a, b := OnSide(strong, first), OnSide(strong, first.Flip());
    if |a| == |b| {
      AverageOrder(a, b);
      AverageOrder(b, a);
    }
    assert side == first || side == first.Flip();
    hide OnSide;
    hide Average;
    hide Confidences;
  }

  lemma FirstMostConfidentUnique(signals: seq<Signal>, j: nat, v: Signal, k: nat, w: Signal)
    requires FirstMostConfident(signals, j, v) && FirstMostConfident(signals, k, w)
    ensures v == w
  {
  }

  /** The selection, exactly: w is selected if and only if it is strong, its side leads and has the agreement, and it
      is the first of the most confident signals of its side. */
  lemma WinnerExact(signals: seq<Signal>, minAgreement: int, minConfidence: real, w: Signal)
    ensures var strong := Strong(signals, minConfidence);
            Winner(signals, minAgreement, minConfidence) == Some(w) <==>
            && strong != [] && Leads(strong, w.side) && |OnSide(strong, w.side)| >= minAgreement
            && exists k :: FirstMostConfident(OnSide(strong, w.side), k, w)
  {
    var strong := Strong(signals, minConfidence);
    if strong != [] {
      OnSideOfHead(strong);
      BestSideLeads(strong, w.side);
      var side := BestSide(strong);
      var group := OnSide(strong, side);
      OnSideMembers(strong, side);
      var j := MostConfidentIsFirst(group);
      hide Leads;
      hide BestSide;
      hide OnSide;
      assert MostConfident(group) in group;
      if exists k :: FirstMostConfident(group, k, w) {
        var k :| FirstMostConfident(group, k, w);
        FirstMostConfidentUnique(group, j, MostConfident(group), k, w);
      }
      hide FirstMostConfident;
    }
  }

  /** Conversely: as soon as some side has the required agreement, a signal is selected. */
  lemma WinnerComplete(signals: seq<Signal>, minAgreement: int, minConfidence: real, side: Side)
    requires OnSide(Strong(signals, minConfidence), side) != []
    requires |OnSide(Strong(signals, minConfidence), side)| >= minAgreement
    ensures Winner(signals, minAgreement, minConfidence).Some?
  {
  }

  // ---- Sorted strategy names -----------------------------------------------

  /** Python's lexicographic string order. */
  predicate NameLe(a: string, b: string) {
    a == [] || (b != [] && (a[0] < b[0] || (a[0] == b[0] && NameLe(a[1..], b[1..]))))
  }

  lemma {:induction false} NameLeTotal(a: string, b: string)
    ensures NameLe(a, b) || NameLe(b, a)
  {
    if a != [] && b != [] && a[0] == b[0] {
      NameLeTotal(a[1..], b[1..]);
    }
  }

  lemma {:induction false} NameLeTransitive(a: string, b: string, c: string)
    requires NameLe(a, b) && NameLe(b, c)
    ensures NameLe(a, c)
  {
    if a != [] && a[0] == b[0] == c[0] {
      NameLeTransitive(a[1..], b[1..], c[1..]);
    }
  }

  ghost predicate Sorted(names: seq<string>) {
    forall i, j :: 0 <= i < j < |names| ==> NameLe(names[i], names[j])
  }

  function InsertName(name: string, names: seq<string>): seq<string> {
    if names == [] || NameLe(name, names[0]) then [name] + names
    else [names[0]] + InsertName(name, names[1..])
  }

  function SortNames(names: seq<string>): seq<string> {
    if names == [] then [] else InsertName(names[0], SortNames(names[1..]))
  }

  lemma {:induction false} InsertNameContents(name: string, names: seq<string>)
    ensures multiset(InsertName(name, names)) == multiset(names) + multiset{name}
  {
    if names != [] && !NameLe(name, names[0]) {
      InsertNameContents(name, names[1..]);
      assert names == [names[0]] + names[1..];
    }
  }

  lemma {:induction false} InsertNameSorted(name: string, names: seq<string>)
    requires Sorted(names)
    ensures Sorted(InsertName(name, names))
  {
    hide NameLe;
    if names == [] {
    } else if NameLe(name, names[0]) {
      forall j | 0 <= j < |names| ensures NameLe(name, names[j]) {
        if j > 0 { NameLeTransitive(name, names[0], names[j]); }
      }
    } else {
      var rest := InsertName(name, names[1..]);
      InsertNameSorted(name, names[1..]);
      InsertNameContents(name, names[1..]);
      NameLeTotal(name, names[0]);
      forall j | 0 <= j < |rest| ensures NameLe(names[0], rest[j]) {
        assert rest[j] in multiset(rest);
        assert rest[j] == name || rest[j] in names[1..];
      }
    }
  }

  lemma {:induction false} SortNamesCorrect(names: seq<string>)
    ensures Sorted(SortNames(names))
    ensures multiset(SortNames(names)) == multiset(names)
  {
    if names != [] {
      SortNamesCorrect(names[1..]);
      InsertNameSorted(names[0], SortNames(names[1..]));
      InsertNameContents(names[0], SortNames(names[1..]));
      assert names == [names[0]] + names[1..];
    }
  }

  function StrategyNames(signals: seq<Signal>): seq<string> {
    seq(|signals|, i requires 0 <= i < |signals| => signals[i].strategy)
  }

  /** The names the backtest records beside the winner. */
  function Contributors(signals: seq<Signal>, minAgreement: int, minConfidence: real): seq<string> {
    match Winner(signals, minAgreement, minConfidence)
    case None => []
    case Some(w) => SortNames(StrategyNames(OnSide(Strong(signals, minConfidence), w.side)))
  }

  lemma WinnerSide(signals: seq<Signal>, minAgreement: int, minConfidence: real)
    requires Winner(signals, minAgreement, minConfidence).Some?
    ensures var strong := Strong(signals, minConfidence);
            strong != [] && Winner(signals, minAgreement, minConfidence).value.side == BestSide(strong)
  {
    var strong := Strong(signals, minConfidence);
    var group := OnSide(strong, BestSide(strong));
    OnSideMembers(strong, BestSide(strong));
    var k := MostConfidentIsFirst(group);
    assert MostConfident(group) in group;
  }

  // ---- The two implementations ---------------------------------------------

  /** The grouping loop: a dictionary keeps the order in which sides first appear. */
  method GroupBySide(strong: seq<Signal>) returns (order: seq<Side>, groups: map<Side, seq<Signal>>)
    ensures forall side :: side in order <==> OnSide(strong, side) != []
    ensures forall side :: side in groups <==> side in order
    ensures forall side :: side in groups ==> groups[side] == OnSide(strong, side)
    ensures strong != [] ==> order != [] && order[0] == strong[0].side
    ensures |order| <= 2 && (|order| == 2 ==> order[1] == order[0].Flip())
  {
    order, groups := [], map[];
    assert forall side :: OnSide([], side) == [];
    hide OnSide;
    for i := 0 to |strong|
      invariant forall side :: side in order <==> OnSide(strong[..i], side) != []
      invariant forall side :: side in groups <==> side in order
      invariant forall side :: side in groups ==> groups[side] == OnSide(strong[..i], side)
      invariant i == 0 ==> order == []
      invariant i > 0 ==> order != [] && order[0] == strong[0].side
      invariant |order| <= 2 && (|order| == 2 ==> order[1] == order[0].Flip())
    {
      var s := strong[i];
      forall side: Side ensures OnSide(strong[..i + 1], side) == OnSide(strong[..i], side) + if s.side == side then [s] else [] {
        OnSideNext(strong, i, side);
      }
      if s.side !in groups {
        order := order + [s.side];
        groups := groups[s.side := []];
      }
      groups := groups[s.side := groups[s.side] + [s]];
    }
    assert strong[..|strong|] == strong;
  }

  /** `max` over the dictionary with key (count, average): strictly better replaces. */
  method MaxSide(strong: seq<Signal>, order: seq<Side>, groups: map<Side, seq<Signal>>) returns (best: Side)
    requires strong != []
    requires forall side :: side in order <==> OnSide(strong, side) != []
    requires forall side :: side in groups <==> side in order
    requires forall side :: side in groups ==> groups[side] == OnSide(strong, side)
    requires order != [] && order[0] == strong[0].side
    requires |order| <= 2 && (|order| == 2 ==> order[1] == order[0].Flip())
    ensures best == BestSide(strong)
  {
    best := order[0];
    for k := 1 to |order|
      invariant best in order
      invariant k == 1 ==> best == order[0]
      invariant k > 1 ==> best == BestSide(strong)
    {
      assert order[k] == order[0].Flip();
      assert order[k] in order && order[0] in order;
      var candidate, incumbent := groups[order[k]], groups[best];
      if |candidate| > |incumbent| || (|candidate| == |incumbent| && Average(candidate) > Average(incumbent)) {
        best := order[k];
      }
    }
    if |order| == 1 {
      assert OnSide(strong, order[0].Flip()) == [];
    }
  }

  /** The live filter. */
  method SelectBestSignal(signals: seq<Signal>, minAgreement: int, minConfidence: real)
    returns (best: Option<Signal>)
    ensures best == Winner(signals, minAgreement, minConfidence)
  {
    if signals == [] {
      return None;
    }
    var strong := Strong(signals, minConfidence);
    if strong == [] {
      return None;
    }
    var order, groups := GroupBySide(strong);
    var side := MaxSide(strong, order, groups);
    OnSideOfHead(strong);
    if |groups[side]| < minAgreement {
      return None;
    }
    best := Some(MostConfident(groups[side]));
  }

  /** The backtest filter: the same choice, with the sorted names of the agreeing strategies. */
  method PickEnsembleSignal(signals: seq<Signal>, minAgreement: int, minConfidence: real)
    returns (best: Option<Signal>, contributors: seq<string>)
    ensures best == Winner(signals, minAgreement, minConfidence)
    ensures contributors == Contributors(signals, minAgreement, minConfidence)
    ensures Sorted(contributors)
    ensures best.Some? ==>
              multiset(contributors) ==
              multiset(StrategyNames(OnSide(Strong(signals, minConfidence), best.value.side)))
  {
    var strong := Strong(signals, minConfidence);
    if strong == [] {
      return None, [];
    }
    var order, groups := GroupBySide(strong);
    var side := MaxSide(strong, order, groups);
    OnSideOfHead(strong);
    if |groups[side]| < minAgreement {
      return None, [];
    }
    contributors := SortNames(StrategyNames(groups[side]));
    best := Some(MostConfident(groups[side]));
    WinnerSide(signals, minAgreement, minConfidence);
    SortNamesCorrect(StrategyNames(groups[side]));
  }
}
