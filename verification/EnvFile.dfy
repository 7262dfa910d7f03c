/** The watchlist's line in the environment file: the text is split into lines, the line is replaced, and the lines
    are written back. */
module EnvFile {
  import opened Prelude
  import opened TextLines
  import opened Watchlist

  // ---- Specification -------------------------------------------------------

  const KEY := "WATCHLIST="

  predicate IsWatchlistLine(line: string) {
    KEY <= Strip(line)
  }

  function Rewritten(lines: seq<string>, value: string): seq<string> {
    if lines == [] then []
    else [if IsWatchlistLine(lines[0]) then KEY + value else lines[0]] + Rewritten(lines[1..], value)
  }

  predicate HasWatchlistLine(lines: seq<string>) {
    exists line :: line in lines && IsWatchlistLine(line)
  }

  function Persisted(lines: seq<string>, value: string): seq<string> {
    Rewritten(lines, value) + if HasWatchlistLine(lines) then [] else [KEY + value]
  }

  /** The file after a save; a missing file counts as an empty one. */
  function Save(text: string, value: string): string {
    Text(Persisted(SplitLines(text), value))
  }

  // ---- The line of the watchlist -------------------------------------------

  lemma KeyLine(value: string)
    ensures IsWatchlistLine(KEY + value)
  {
    var line := KEY + value;
    assert line[0] == 'W' && !Space('W');
    assert StripLeft(line) == line;
    StripKeepsKey(value);
  }

  lemma {:induction false} StripKeepsKey(value: string)
    ensures KEY <= StripRight(KEY + value)
  {
    if value == [] {
      assert KEY + value == KEY;
      assert !Space(KEY[|KEY| - 1]);
    } else {
      var line := KEY + value;
      assert line[..|line| - 1] == KEY + value[..|value| - 1];
      assert line[|line| - 1] == value[|value| - 1];
      StripKeepsKey(value[..|value| - 1]);
    }
  }

  lemma WrittenValue(value: string) returns (head: string, tail: seq<string>)
    ensures SplitLines(KEY + value + ['\n']) == [KEY + head] + tail
    ensures tail == [] <==> OneLine(value)
    ensures OneLine(value) ==> head == Chopped(value)
  {
    hide SplitLines;
    hide OneLine;
    head, tail := KeyedLine(KEY, value);
  }

  lemma {:induction false} RewrittenConcat(a: seq<string>, b: seq<string>, value: string)
    ensures Rewritten(a + b, value) == Rewritten(a, value) + Rewritten(b, value)
  {
    if a == [] {
      assert a + b == b;
    } else {
      assert (a + b)[1..] == a[1..] + b;
      RewrittenConcat(a[1..], b, value);
    }
  }

  /** Appending the line when there is none is rewriting a file that already ends with one. */
  function Keyed(lines: seq<string>): seq<string> {
    if HasWatchlistLine(lines) then lines else lines + [KEY]
  }

  lemma KeyedRewritten(lines: seq<string>, value: string)
    ensures HasWatchlistLine(Keyed(lines))
    ensures Persisted(lines, value) == Rewritten(Keyed(lines), value)
  {
    hide IsWatchlistLine;
    if !HasWatchlistLine(lines) {
      KeyLine("");
      assert KEY + "" == KEY;
      RewrittenConcat(lines, [KEY], value);
      assert Rewritten([KEY], value) == [KEY + value] + Rewritten([], value);
      assert KEY in lines + [KEY];
    }
  }

  // ---- The lines after a save ----------------------------------------------

  /** The lines after saving `first` and then `second`, when `first` was read back with the given broken-off tail. */
  lemma {:induction false} RewrittenTwice(lines: seq<string>, first: string, head: string, tail: seq<string>, second: string)
    requires forall line :: line in lines ==> Unbroken(line)
    requires SplitLines(KEY + first + ['\n']) == [KEY + head] + tail
    ensures var twice, once := Rewritten(Reread(Rewritten(lines, first)), second), Rewritten(lines, second);
            && (tail == [] ==> twice == once)
            && |Text(twice)| >= |Text(once)|
            && (tail != [] && HasWatchlistLine(lines) ==> |Text(twice)| > |Text(once)|)
    ensures HasWatchlistLine(lines) ==> HasWatchlistLine(Reread(Rewritten(lines, first)))
  {
    hide IsWatchlistLine;
    hide SplitLines;
    if lines != [] {
      var rest := lines[1..];
      assert forall line :: line in rest ==> line in lines;
      RewrittenTwice(rest, first, head, tail, second);
      var read := SplitLines(Rewritten(lines, first)[0] + ['\n']);
      assert Rewritten(lines, first)[1..] == Rewritten(rest, first);
      var others := Reread(Rewritten(rest, first));
      assert Reread(Rewritten(lines, first)) == read + others;
      RewrittenConcat(read, others, second);
      TextConcat(Rewritten(read, second), Rewritten(others, second));
      ReadLine(lines[0], first, head, tail, second);
      HasSplit(lines);
      HasEither(read, others);
    }
  }

  lemma HasSplit(lines: seq<string>)
    requires lines != []
    ensures HasWatchlistLine(lines) <==> IsWatchlistLine(lines[0]) || HasWatchlistLine(lines[1..])
  {
    hide IsWatchlistLine;
    assert lines == [lines[0]] + lines[1..];
  }

  lemma HasEither(a: seq<string>, b: seq<string>)
    ensures HasWatchlistLine(a + b) <==> HasWatchlistLine(a) || HasWatchlistLine(b)
  {
    hide IsWatchlistLine;
  }

  lemma ReadLine(line: string, first: string, head: string, tail: seq<string>, second: string)
    requires Unbroken(line)
    requires SplitLines(KEY + first + ['\n']) == [KEY + head] + tail
    ensures var read := SplitLines((if IsWatchlistLine(line) then KEY + first else line) + ['\n']);
            var once := if IsWatchlistLine(line) then KEY + second else line;
            && (tail == [] || !IsWatchlistLine(line) ==> Rewritten(read, second) == [once])
            && |Text(Rewritten(read, second))| >= |once| + 1
            && (tail != [] && IsWatchlistLine(line) ==> |Text(Rewritten(read, second))| > |once| + 1)
            && (IsWatchlistLine(line) ==> HasWatchlistLine(read))
  {
    hide IsWatchlistLine;
    hide SplitLines;
    if IsWatchlistLine(line) {
      KeyLine(head);
      var read := [KEY + head] + tail;
      assert read[1..] == tail;
      assert Rewritten(read, second) == [KEY + second] + Rewritten(tail, second);
      TextConcat([KEY + second], Rewritten(tail, second));
      assert KEY + head in read;
    } else {
      UnbrokenLine(line);
    }
  }

  lemma KeyedUnbroken(lines: seq<string>)
    requires forall line :: line in lines ==> Unbroken(line)
    ensures forall line :: line in Keyed(lines) ==> Unbroken(line)
  {
    hide HasWatchlistLine;
  }

  lemma EmptyWatchlist()
    ensures Parse("") == []
  {
    hide Parse;
    PrintThenParse([]);
    assert PrintPairs([]) == [];
  }

  /** A pair whose symbol has a line break inside. */
  function BrokenPair(): Pair {
    Pair("A\nB", "NSE")
  }

  lemma BrokenPrintable()
    ensures Printable(BrokenPair())
  {
  }

  /** Such a symbol passes every check of the add request: it is trimmed, unwatched, and appended as one pair. Its
      value does not fit on one line, and after being saved half of it stays behind (`RestStays`). */
  lemma BrokenSymbolAccepted()
    ensures Printable(BrokenPair()) && Parse(Added("", BrokenPair())) == [BrokenPair()]
    ensures !OneLine(Added("", BrokenPair()))
  {
    EmptyWatchlist();
    BrokenPrintable();
    AddAppendsIff("", BrokenPair());
    hide Parse;
    hide Printable;
    assert PrintPair(BrokenPair())[1] == '\n';
  }

  lemma SaveEmpty(value: string)
    ensures Save("", value) == KEY + value + ['\n']
  {
    hide IsWatchlistLine;
    NoLines();
    hide SplitLines;
    var none: seq<string> := [];
    assert Persisted(none, value) == [KEY + value];
    TextOne(KEY + value);
  }

  lemma TextOne(line: string)
    ensures Text([line]) == line + ['\n']
  {
    assert [line][1..] == [];
  }

  lemma RewrittenTwo(first: string, other: string, value: string)
    requires IsWatchlistLine(first) && !IsWatchlistLine(other)
    ensures Persisted([first, other], value) == [KEY + value, other]
  {
    hide IsWatchlistLine;
    assert [first, other][1..] == [other];
    assert [other][1..] == [];
    assert Rewritten([other], value) == [other] + Rewritten([], value);
    assert first in [first, other];
  }

  /** What breaks off a value at a line feed is still in the file after the next save. */
  lemma RestStays(head: string, rest: string, second: string)
    requires Unbroken(KEY + head) && Unbroken(rest) && !IsWatchlistLine(rest)
    ensures Save(Save("", head + ['\n'] + rest), second) == Text([KEY + second, rest])
  {
    hide SplitLines;
    hide IsWatchlistLine;
    hide Persisted;
    hide Text;
    var value, line := head + ['\n'] + rest, KEY + head;
    SaveEmpty(value);
    assert KEY + value + ['\n'] == line + ['\n'] + (rest + ['\n']);
    SplitAtLineFeed(line, rest + ['\n']);
    UnbrokenLine(line);
    UnbrokenLine(rest);
    assert SplitLines(Save("", value)) == [line, rest];
    KeyLine(head);
    RewrittenTwo(line, rest, second);
  }

  lemma RewrittenNext(lines: seq<string>, line: string, value: string)
    ensures Rewritten(lines + [line], value) ==
            Rewritten(lines, value) + [if IsWatchlistLine(line) then KEY + value else line]
    ensures HasWatchlistLine(lines + [line]) <==> HasWatchlistLine(lines) || IsWatchlistLine(line)
  {
    hide IsWatchlistLine;
    RewrittenConcat(lines, [line], value);
    assert Rewritten([line], value) == [if IsWatchlistLine(line) then KEY + value else line] + Rewritten([], value);
    HasEither(lines, [line]);
    HasSplit([line]);
  }

  lemma KeyedNonempty(lines: seq<string>, value: string)
    ensures Persisted(lines, value) != []
  {
    hide IsWatchlistLine;
  }

  // ---- The endpoint --------------------------------------------------------

  /** Rewrite every watchlist line or append one, then write all lines back. */
  method PersistToEnv(file: Option<string>, value: string) returns (text: string)
    ensures text == Save(if file.Some? then file.value else "", value)
  {
    hide IsWatchlistLine;
    hide SplitLines;
    NoLines();
    var lines := if file.Some? then SplitLines(file.value) else [];
    var updated := false;
    var out: seq<string> := [];
    for i := 0 to |lines|
      invariant out == Rewritten(lines[..i], value)
      invariant updated <==> HasWatchlistLine(lines[..i])
    {
      assert lines[..i + 1] == lines[..i] + [lines[i]];
      RewrittenNext(lines[..i], lines[i], value);
      if IsWatchlistLine(lines[i]) {
        out := out + [KEY + value];
        updated := true;
      } else {
        out := out + [lines[i]];
      }
    }
    assert lines[..|lines|] == lines;
    if !updated {
      out := out + [KEY + value];
    }
    assert out == Persisted(lines, value);
    KeyedRewritten(lines, value);
    hide HasWatchlistLine;
    hide Rewritten;
    hide Persisted;
    hide Join;
    hide Text;
    KeyedNonempty(lines, value);
    JoinIsText(out);
    text := Join(out, '\n') + ['\n'];
  }

  // ---- Saving twice --------------------------------------------------------

  /** Saving twice leaves the file as saving the second value alone if and only if the first value fits on its line. */
  lemma LastSaveWinsIff(text: string, first: string, second: string)
    ensures Save(Save(text, first), second) == Save(text, second) <==> OneLine(first)
  {
    hide SplitLines;
    hide OneLine;
    hide Persisted;
    hide Rewritten;
    hide HasWatchlistLine;
    var lines := SplitLines(text);
    LinesUnbroken(text);
    KeyedUnbroken(lines);
    var head, tail := WrittenValue(first);
    KeyedRewritten(lines, first);
    KeyedRewritten(lines, second);
    var saved := Rewritten(Keyed(lines), first);
    TextReread(saved);
    RewrittenTwice(Keyed(lines), first, head, tail, second);
    KeyedRewritten(Reread(saved), second);
  }
}
