/** The watchlist string: its parser, and the two edits that rewrite it. */
module Watchlist {
  import opened Prelude

  // ---- String helpers, as Python defines them ------------------------------

  predicate Space(c: char) {
    || '\t' <= c <= '\r' || c == ' ' || '\U{1c}' <= c <= '\U{1f}' || c == '\U{85}' || c == '\U{a0}'
    || c == '\U{1680}' || '\U{2000}' <= c <= '\U{200a}' || c == '\U{2028}' || c == '\U{2029}'
    || c == '\U{202f}' || c == '\U{205f}' || c == '\U{3000}'
  }

  function StripLeft(s: string): string {
    if s != [] && Space(s[0]) then StripLeft(s[1..]) else s
  }

  function StripRight(s: string): string {
    if s != [] && Space(s[|s| - 1]) then StripRight(s[..|s| - 1]) else s
  }

  function Strip(s: string): string {
    StripRight(StripLeft(s))
  }

  predicate Stripped(s: string) {
    s == [] || (!Space(s[0]) && !Space(s[|s| - 1]))
  }

  function IndexOf(s: string, c: char): (k: nat)
    requires c in s
    ensures k < |s| && s[k] == c && c !in s[..k]
  {
    if s[0] == c then 0 else 1 + IndexOf(s[1..], c)
  }

  function Split(s: string, sep: char): seq<string> {
    if sep !in s then [s]
    else
      var k := IndexOf(s, sep);
      [s[..k]] + Split(s[k + 1..], sep)
  }

  function Join(parts: seq<string>, sep: char): string {
    if parts == [] then ""
    else if |parts| == 1 then parts[0]
    else parts[0] + [sep] + Join(parts[1..], sep)
  }

  // ---- Specification -------------------------------------------------------

  datatype Pair = Pair(symbol: string, exchange: string)

  function ParseEntry(entry: string): Option<Pair> {
    var e := Strip(entry);
    if e == [] then None
    else if ':' in e then
      var k := IndexOf(e, ':');
      Some(Pair(Strip(e[..k]), Strip(e[k + 1..])))
    else Some(Pair(e, "NSE"))
  }

  function ParseAll(entries: seq<string>): seq<Pair> {
    if entries == [] then []
    else
      var n := |entries| - 1;
      ParseAll(entries[..n]) + match ParseEntry(entries[n]) case None => [] case Some(p) => [p]
  }

  function Parse(watchlist: string): seq<Pair> {
    ParseAll(Split(watchlist, ','))
  }

  function PrintPair(p: Pair): string {
    p.symbol + ":" + p.exchange
  }

  function PrintPairs(pairs: seq<Pair>): seq<string> {
    seq(|pairs|, i requires 0 <= i < |pairs| => PrintPair(pairs[i]))
  }

  function Print(pairs: seq<Pair>): string {
    Join(PrintPairs(pairs), ',')
  }

  function Without(pairs: seq<Pair>, symbol: string): seq<Pair> {
    Filter(pairs, (p: Pair) => p.symbol != symbol)
  }

  predicate Watched(pairs: seq<Pair>, symbol: string) {
    exists p :: p in pairs && p.symbol == symbol
  }

  /** Removing a symbol prints what is left. */
  function Removed(watchlist: string, symbol: string): string {
    Print(Without(Parse(watchlist), symbol))
  }

  /** Adding a symbol appends text, unless the symbol is already watched. */
  function Added(watchlist: string, p: Pair): string {
    if Watched(Parse(watchlist), p.symbol) then watchlist
    else if watchlist != [] then watchlist + "," + PrintPair(p)
    else PrintPair(p)
  }

  // ---- Stripping -----------------------------------------------------------

  lemma {:induction false} StripLeftFacts(s: string)
    ensures StripLeft(s) == [] || !Space(StripLeft(s)[0])
    ensures forall c :: c in StripLeft(s) ==> c in s
    ensures s != [] && !Space(s[|s| - 1]) ==> StripLeft(s) != [] && StripLeft(s)[|StripLeft(s)| - 1] == s[|s| - 1]
  {
    if s != [] && Space(s[0]) {
      StripLeftFacts(s[1..]);
    }
  }

  lemma {:induction false} StripRightFacts(s: string)
    ensures StripRight(s) == [] || (s != [] && StripRight(s)[0] == s[0] && !Space(StripRight(s)[|StripRight(s)| - 1]))
    ensures forall c :: c in StripRight(s) ==> c in s
  {
    if s != [] && Space(s[|s| - 1]) {
      StripRightFacts(s[..|s| - 1]);
    }
  }

  lemma StripFacts(s: string)
    ensures Stripped(Strip(s))
    ensures forall c :: c in Strip(s) ==> c in s
    ensures Stripped(s) ==> Strip(s) == s
  {
    StripLeftFacts(s);
    StripRightFacts(StripLeft(s));
  }

  predicate Blank(s: string) {
    forall i :: 0 <= i < |s| ==> Space(s[i])
  }

  lemma {:induction false} StripLeftPadded(pre: string, rest: string)
    requires Blank(pre) && (rest == [] || !Space(rest[0]))
    ensures StripLeft(pre + rest) == rest
  {
    hide Space;
    if pre == [] {
      assert pre + rest == rest;
    } else {
      assert (pre + rest)[0] == pre[0] && (pre + rest)[1..] == pre[1..] + rest;
      StripLeftPadded(pre[1..], rest);
    }
  }

  lemma {:induction false} StripRightPadded(rest: string, post: string)
    requires Blank(post) && (rest == [] || !Space(rest[|rest| - 1]))
    ensures StripRight(rest + post) == rest
  {
    hide Space;
    if post == [] {
      assert rest + post == rest;
    } else {
      var n := |post| - 1;
      assert (rest + post)[|rest| + n] == post[n] && (rest + post)[..|rest| + n] == rest + post[..n];
      StripRightPadded(rest, post[..n]);
    }
  }

  /** Stripping removes exactly the blanks around a stripped text. */
  lemma StripPadded(pre: string, s: string, post: string)
    requires Blank(pre) && Blank(post) && Stripped(s)
    ensures Strip(pre + s + post) == s
  {
    hide Space;
    if s == [] {
      assert pre + s + post == pre + post + [];
      StripLeftPadded(pre + post, []);
      assert StripRight([]) == [];
    } else {
      assert pre + s + post == pre + (s + post);
      StripLeftPadded(pre, s + post);
      StripRightPadded(s, post);
    }
  }

  lemma {:induction false} LeftPadding(s: string) returns (pre: string)
    ensures Blank(pre) && s == pre + StripLeft(s)
  {
    hide Space;
    if s != [] && Space(s[0]) {
      pre := LeftPadding(s[1..]);
      pre := [s[0]] + pre;
      assert s == [s[0]] + s[1..];
    } else {
      pre := [];
    }
  }

  lemma {:induction false} RightPadding(s: string) returns (post: string)
    ensures Blank(post) && s == StripRight(s) + post
  {
    hide Space;
    if s != [] && Space(s[|s| - 1]) {
      post := RightPadding(s[..|s| - 1]);
      post := post + [s[|s| - 1]];
      assert s == s[..|s| - 1] + [s[|s| - 1]];
    } else {
      post := [];
    }
  }

  /** Every text is its stripped form between blanks. */
  lemma Padding(s: string) returns (pre: string, post: string)
    ensures Blank(pre) && Blank(post) && s == pre + Strip(s) + post
  {
    hide Space;
    hide StripLeft;
    hide StripRight;
    pre := LeftPadding(s);
    post := RightPadding(StripLeft(s));
    hide Blank;
    Regroup(pre, Strip(s), post);
  }

  lemma Regroup(a: string, b: string, c: string)
    ensures a + (b + c) == a + b + c
  {
  }

  lemma StripOfLeft(s: string)
    ensures Strip(StripLeft(s)) == Strip(s)
  {
    StripLeftFacts(s);
    hide Space;
    StripLeftPadded([], StripLeft(s));
    hide StripLeft;
    hide StripRight;
    assert [] + StripLeft(s) == StripLeft(s);
  }

  lemma BlankBoth(a: string, b: string)
    requires Blank(a) && Blank(b)
    ensures Blank(a + b)
  {
    hide Space;
  }

  lemma StripOfRight(s: string)
    ensures Strip(StripRight(s)) == Strip(s)
  {
    var pre, post := Padding(s);
    var core := Strip(s);
    StripFacts(s);
    hide StripLeft;
    hide StripRight;
    hide Strip;
    if core == [] {
      assert s == [] + (pre + post) && s == pre + post;
      BlankBoth(pre, post);
      hide Space;
      StripRightPadded([], pre + post);
      StripPadded([], [], []);
      assert [] + [] + [] == StripRight(s);
    } else {
      assert (pre + core)[|pre + core| - 1] == core[|core| - 1];
      hide Space;
      StripRightPadded(pre + core, post);
      StripPadded(pre, core, []);
      assert pre + core + [] == pre + core;
    }
  }

  // ---- Splitting -----------------------------------------------------------

  lemma FirstIndex(a: string, c: char, rest: string)
    requires c !in a
    ensures c in a + [c] + rest && IndexOf(a + [c] + rest, c) == |a|
  {
    var s := a + [c] + rest;
    assert s[|a|] == c;
    var k := IndexOf(s, c);
    assert forall j :: 0 <= j < k ==> s[j] == s[..k][j];
    assert forall j :: 0 <= j < |a| ==> s[j] == a[j];
  }

  lemma SplitHead(a: string, sep: char, rest: string)
    requires sep !in a
    ensures Split(a + [sep] + rest, sep) == [a] + Split(rest, sep)
  {
    FirstIndex(a, sep, rest);
    var s := a + [sep] + rest;
    assert s[..|a|] == a && s[|a| + 1..] == rest;
  }

  lemma {:induction false} SplitConcat(s: string, sep: char, t: string)
    ensures Split(s + [sep] + t, sep) == Split(s, sep) + Split(t, sep)
    decreases |s|
  {
    if sep !in s {
      SplitHead(s, sep, t);
    } else {
      var k := IndexOf(s, sep);
      assert s == s[..k] + [sep] + s[k + 1..];
      assert s + [sep] + t == s[..k] + [sep] + (s[k + 1..] + [sep] + t);
      SplitHead(s[..k], sep, s[k + 1..] + [sep] + t);
      SplitConcat(s[k + 1..], sep, t);
    }
  }

  lemma {:induction false} SplitJoin(parts: seq<string>, sep: char)
    requires parts != [] && forall p :: p in parts ==> sep !in p
    ensures Split(Join(parts, sep), sep) == parts
  {
    if |parts| > 1 {
      SplitJoin(parts[1..], sep);
      SplitHead(parts[0], sep, Join(parts[1..], sep));
    }
  }

  lemma {:induction false} SplitPieces(s: string, sep: char)
    ensures forall p :: p in Split(s, sep) ==> sep !in p
  {
    if sep in s {
      SplitPieces(s[IndexOf(s, sep) + 1..], sep);
    }
  }

  lemma {:induction false} ParseAllConcat(a: seq<string>, b: seq<string>)
    ensures ParseAll(a + b) == ParseAll(a) + ParseAll(b)
  {
    if b == [] {
      assert a + b == a;
    } else {
      var n := |b| - 1;
      assert (a + b)[..|a + b| - 1] == a + b[..n];
      ParseAllConcat(a, b[..n]);
    }
  }

  // ---- What the parser can return ------------------------------------------

  /** A pair that survives printing: trimmed fields, no comma anywhere, no colon in the symbol. */
  predicate Printable(p: Pair) {
    && Stripped(p.symbol) && Stripped(p.exchange)
    && ',' !in p.symbol && ',' !in p.exchange && ':' !in p.symbol
  }

  lemma EntryPrintable(entry: string)
    requires ',' !in entry
    ensures match ParseEntry(entry) case None => true case Some(p) => Printable(p)
  {
    var e := Strip(entry);
    StripFacts(entry);
    if ':' in e {
      var k := IndexOf(e, ':');
      StripFacts(e[..k]);
      StripFacts(e[k + 1..]);
    }
  }

  lemma ColonStripped(left: string, right: string)
    requires (left == [] || !Space(left[0])) && (right == [] || !Space(right[|right| - 1]))
    ensures Stripped(left + [':'] + right)
  {
    assert !Space(':');
    hide Space;
    var core := left + [':'] + right;
    assert core[0] == if left == [] then ':' else left[0];
    assert core[|core| - 1] == if right == [] then ':' else right[|right| - 1];
  }

  lemma RegroupAround(pre: string, left: string, right: string, post: string)
    ensures (pre + left) + [':'] + (right + post) == pre + (left + [':'] + right) + post
  {
  }

  /** The first colon survives the trimming of the whole entry. */
  lemma TrimAround(symbol: string, exchange: string)
    ensures Strip(symbol + [':'] + exchange) == StripLeft(symbol) + [':'] + StripRight(exchange)
  {
    var left, right := StripLeft(symbol), StripRight(exchange);
    var pre := LeftPadding(symbol);
    var post := RightPadding(exchange);
    StripLeftFacts(symbol);
    StripRightFacts(exchange);
    hide Space;
    hide StripLeft;
    hide StripRight;
    hide Blank;
    hide Strip;
    ColonStripped(left, right);
    hide Stripped;
    RegroupAround(pre, left, right, post);
    StripPadded(pre, left + [':'] + right, post);
  }

  /** An entry with a colon is read as the trimmed texts before and after its first colon. */
  lemma EntryWithExchange(symbol: string, exchange: string)
    requires ':' !in symbol
    ensures ParseEntry(symbol + [':'] + exchange) == Some(Pair(Strip(symbol), Strip(exchange)))
  {
    var left, right := StripLeft(symbol), StripRight(exchange);
    TrimAround(symbol, exchange);
    StripLeftFacts(symbol);
    StripOfLeft(symbol);
    StripOfRight(exchange);
    hide Strip;
    hide StripLeft;
    hide StripRight;
    FirstIndex(left, ':', right);
    var core := left + [':'] + right;
    assert core[..|left|] == left && core[|left| + 1..] == right;
  }

  /** An entry without a colon is the trimmed symbol on NSE, or nothing if it is blank. */
  lemma EntryWithoutExchange(entry: string)
    requires ':' !in entry
    ensures ParseEntry(entry) == if Blank(entry) then None else Some(Pair(Strip(entry), "NSE"))
  {
    StripFacts(entry);
    var pre, post := Padding(entry);
    hide StripLeft;
    hide StripRight;
    hide Space;
    if Blank(entry) {
      StripPadded([], [], entry);
      assert [] + [] + entry == entry;
    } else {
      BlankBoth(pre, post);
      assert pre + [] + post == pre + post;
    }
  }

  lemma {:induction false} ParseAllPrintable(entries: seq<string>)
    requires forall e :: e in entries ==> ',' !in e
    ensures forall p :: p in ParseAll(entries) ==> Printable(p)
  {
    if entries != [] {
      ParseAllPrintable(entries[..|entries| - 1]);
      EntryPrintable(entries[|entries| - 1]);
    }
  }

  lemma ParsePrintable(watchlist: string)
    ensures forall p :: p in Parse(watchlist) ==> Printable(p)
  {
    SplitPieces(watchlist, ',');
    ParseAllPrintable(Split(watchlist, ','));
  }

  lemma PrintedEntry(p: Pair)
    requires Printable(p)
    ensures ',' !in PrintPair(p) && ParseEntry(PrintPair(p)) == Some(p)
  {
    var e := PrintPair(p);
    assert e == p.symbol + [':'] + p.exchange;
    assert Stripped(e);
    StripFacts(e);
    FirstIndex(p.symbol, ':', p.exchange);
    var k := |p.symbol|;
    assert e[..k] == p.symbol && e[k + 1..] == p.exchange;
    StripFacts(p.symbol);
    StripFacts(p.exchange);
  }

  lemma {:induction false} ParsePrinted(pairs: seq<Pair>)
    requires forall p :: p in pairs ==> Printable(p)
    ensures ParseAll(PrintPairs(pairs)) == pairs
  {
    hide ParseEntry;
    hide PrintPair;
    hide Printable;
    if pairs != [] {
      var n := |pairs| - 1;
      assert PrintPairs(pairs)[..n] == PrintPairs(pairs[..n]);
      ParsePrinted(pairs[..n]);
      PrintedEntry(pairs[n]);
    }
  }

  /** Printing and parsing again gives back any list of printable pairs. */
  lemma PrintThenParse(pairs: seq<Pair>)
    requires forall p :: p in pairs ==> Printable(p)
    ensures Parse(Print(pairs)) == pairs
  {
    if pairs == [] {
      assert Split("", ',') == [""];
      assert ParseAll([""][..0]) == [];
      assert ParseEntry("") == None;
    } else {
      var parts := PrintPairs(pairs);
      forall e | e in parts ensures ',' !in e {
        var i :| 0 <= i < |parts| && parts[i] == e;
        assert pairs[i] in pairs;
        PrintedEntry(pairs[i]);
      }
      SplitJoin(parts, ',');
      ParsePrinted(pairs);
    }
  }

  /** Every watchlist string, however untidy, prints to a string that means the same. */
  lemma RoundTrip(watchlist: string)
    ensures Parse(Print(Parse(watchlist))) == Parse(watchlist)
  {
    ParsePrintable(watchlist);
    PrintThenParse(Parse(watchlist));
  }

  // ---- The edits -----------------------------------------------------------

  /** Removing a symbol drops exactly its pairs and keeps the others in order. */
  lemma RemoveFilters(watchlist: string, symbol: string)
    ensures Parse(Removed(watchlist, symbol)) == Without(Parse(watchlist), symbol)
  {
    ParsePrintable(watchlist);
    FilterMembers(Parse(watchlist), (p: Pair) => p.symbol != symbol);
    PrintThenParse(Without(Parse(watchlist), symbol));
  }

  /** Adding a trimmed, unwatched pair appends exactly it if and only if neither field holds a comma and the symbol
      holds no colon. */
  lemma AddAppendsIff(watchlist: string, p: Pair)
    requires Stripped(p.symbol) && Stripped(p.exchange)
    requires !Watched(Parse(watchlist), p.symbol)
    ensures Parse(Added(watchlist, p)) == Parse(watchlist) + [p] <==>
            ',' !in p.symbol && ',' !in p.exchange && ':' !in p.symbol
  {
    var after := Parse(Added(watchlist, p));
    ParsePrintable(Added(watchlist, p));
    if Printable(p) {
      PrintThenParse([p]);
      assert Print([p]) == PrintPair(p);
      if watchlist != [] {
        assert watchlist + "," + PrintPair(p) == watchlist + [','] + PrintPair(p);
        SplitConcat(watchlist, ',', PrintPair(p));
        ParseAllConcat(Split(watchlist, ','), Split(PrintPair(p), ','));
      } else {
        PrintThenParse([]);
      }
    } else {
      assert p in Parse(watchlist) + [p];
    }
  }

  lemma {:induction false} WithoutAbsent(pairs: seq<Pair>, symbol: string)
    requires !Watched(pairs, symbol)
    ensures Without(pairs, symbol) == pairs
  {
    if pairs != [] {
      var n := |pairs| - 1;
      assert pairs[n] in pairs;
      assert forall p :: p in pairs[..n] ==> p in pairs;
      WithoutAbsent(pairs[..n], symbol);
    }
  }

  /** Removing a symbol just added leaves the watchlist as it was. */
  lemma RemoveUndoesAdd(watchlist: string, p: Pair)
    requires Printable(p) && !Watched(Parse(watchlist), p.symbol)
    ensures Parse(Removed(Added(watchlist, p), p.symbol)) == Parse(watchlist)
  {
    AddAppendsIff(watchlist, p);
    RemoveFilters(Added(watchlist, p), p.symbol);
    FilterAppend(Parse(watchlist), p, (q: Pair) => q.symbol != p.symbol);
    WithoutAbsent(Parse(watchlist), p.symbol);
  }

  // ---- The settings object -------------------------------------------------

  class Settings {
    var watchlist: string

    constructor (watchlist: string)
      ensures this.watchlist == watchlist
    {
      this.watchlist := watchlist;
    }

    method WatchlistPairs() returns (out: seq<Pair>)
      ensures out == Parse(watchlist)
    {
      out := [];
      var entries := Split(watchlist, ',');
      for i := 0 to |entries|
        invariant out == ParseAll(entries[..i])
      {
        assert entries[..i + 1][..i] == entries[..i];
        var entry := Strip(entries[i]);
        if entry == [] {
          continue;
        }
        if ':' in entry {
          var k := IndexOf(entry, ':');
          out := out + [Pair(Strip(entry[..k]), Strip(entry[k + 1..]))];
        } else {
          out := out + [Pair(entry, "NSE")];
        }
      }
      assert entries[..|entries|] == entries;
    }

    method AddSymbol(symbol: string, exchange: string) returns (added: bool)
      modifies this
      ensures watchlist == Added(old(watchlist), Pair(symbol, exchange))
      ensures added <==> !Watched(Parse(old(watchlist)), symbol)
      ensures !added ==> watchlist == old(watchlist)
    {
      var pairs := WatchlistPairs();
      var current := set p | p in pairs :: p.symbol;
      if symbol in current {
        return false;
      }
      var entry := symbol + ":" + exchange;
      watchlist := if watchlist != [] then watchlist + "," + entry else entry;
      added := true;
    }

    method RemoveSymbol(symbol: string) returns (remaining: nat)
      modifies this
      ensures watchlist == Removed(old(watchlist), symbol)
      ensures remaining == |Parse(watchlist)|
    {
      var pairs := WatchlistPairs();
      var kept := Filter(pairs, (p: Pair) => p.symbol != symbol);
      ghost var before := watchlist;
      watchlist := Join(PrintPairs(kept), ',');
      remaining := |kept|;
      RemoveFilters(before, symbol);
    }
  }
}
