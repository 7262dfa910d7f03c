/** What saving the watchlist does to the lines of the environment file. */
module EnvEntries {
  import opened Prelude
  import opened TextLines
  import opened EnvFile

  /** The entries that do not concern the watchlist. */
  function Others(lines: seq<string>): seq<string> {
    Filter(lines, (line: string) => !IsWatchlistLine(line))
  }

  lemma OthersConcat(a: seq<string>, b: seq<string>)
    ensures Others(a + b) == Others(a) + Others(b)
  {
    FilterConcat(a, b, (line: string) => !IsWatchlistLine(line));
  }

  lemma OthersOne(line: string)
    ensures Others([line]) == if IsWatchlistLine(line) then [] else [line]
  {
    hide IsWatchlistLine;
    assert Others([]) == [];
    assert [line][..0] == [];
  }

  lemma {:induction false} OthersReread(lines: seq<string>, value: string, head: string)
    requires forall line :: line in lines ==> Unbroken(line)
    requires SplitLines(KEY + value + ['\n']) == [KEY + head]
    ensures Others(Reread(Rewritten(lines, value))) == Others(lines)
  {
    hide IsWatchlistLine;
    hide SplitLines;
    hide Others;
    if lines != [] {
      var rest := lines[1..];
      assert forall line :: line in rest ==> line in lines;
      OthersReread(rest, value, head);
      assert Rewritten(lines, value)[1..] == Rewritten(rest, value);
      var read := SplitLines(Rewritten(lines, value)[0] + ['\n']);
      assert Reread(Rewritten(lines, value)) == read + Reread(Rewritten(rest, value));
      OthersConcat(read, Reread(Rewritten(rest, value)));
      assert lines == [lines[0]] + rest;
      OthersConcat([lines[0]], rest);
      OthersOne(lines[0]);
      if IsWatchlistLine(lines[0]) {
        KeyLine(head);
        OthersOne(KEY + head);
      } else {
        UnbrokenLine(lines[0]);
      }
    }
  }

  /** Saving a value that fits on its line preserves every other entry of the file, in order. */
  lemma OthersPreserved(text: string, value: string)
    requires OneLine(value)
    ensures Others(SplitLines(Save(text, value))) == Others(SplitLines(text))
  {
    hide SplitLines;
    hide OneLine;
    hide Persisted;
    hide Rewritten;
    hide IsWatchlistLine;
    var lines := SplitLines(text);
    LinesUnbroken(text);
    var head, tail := WrittenValue(value);
    KeyedRewritten(lines, value);
    KeyedUnbroken(lines);
    TextReread(Rewritten(Keyed(lines), value));
    OthersReread(Keyed(lines), value, head);
    OthersKeyed(lines);
  }

  lemma {:induction false} RereadOneLine(lines: seq<string>, value: string, head: string)
    requires forall line :: line in lines ==> Unbroken(line)
    requires SplitLines(KEY + value + ['\n']) == [KEY + head]
    ensures Reread(Rewritten(lines, value)) == Rewritten(lines, head)
  {
    hide IsWatchlistLine;
    hide SplitLines;
    if lines != [] {
      var rest := lines[1..];
      assert forall line :: line in rest ==> line in lines;
      RereadOneLine(rest, value, head);
      assert Rewritten(lines, value)[1..] == Rewritten(rest, value);
      if !IsWatchlistLine(lines[0]) {
        UnbrokenLine(lines[0]);
      }
    }
  }

  lemma {:induction false} RewrittenAt(lines: seq<string>, value: string)
    ensures |Rewritten(lines, value)| == |lines|
    ensures forall i :: 0 <= i < |lines| ==>
              Rewritten(lines, value)[i] == if IsWatchlistLine(lines[i]) then KEY + value else lines[i]
  {
    hide IsWatchlistLine;
    if lines != [] {
      RewrittenAt(lines[1..], value);
    }
  }

  /** The file after saving a value that fits on its line: the value, without a final carriage return, stands behind
      the key in the place of every watchlist line, or on a new last line if there was none; every other line stays. */
  lemma SavedInPlace(text: string, value: string)
    requires OneLine(value)
    ensures var before, after := SplitLines(text), SplitLines(Save(text, value));
            && |after| == |before| + (if HasWatchlistLine(before) then 0 else 1)
            && (forall i :: 0 <= i < |before| ==>
                  after[i] == if IsWatchlistLine(before[i]) then KEY + Chopped(value) else before[i])
            && (!HasWatchlistLine(before) ==> after[|before|] == KEY + Chopped(value))
  {
    hide SplitLines;
    hide OneLine;
    hide Chopped;
    hide Persisted;
    hide Rewritten;
    hide IsWatchlistLine;
    var lines := SplitLines(text);
    LinesUnbroken(text);
    var head, tail := WrittenValue(value);
    KeyedRewritten(lines, value);
    KeyedUnbroken(lines);
    TextReread(Rewritten(Keyed(lines), value));
    RereadOneLine(Keyed(lines), value, head);
    RewrittenAt(Keyed(lines), head);
    KeyLine("");
    assert KEY + "" == KEY;
    hide HasWatchlistLine;
  }

  lemma OthersKeyed(lines: seq<string>)
    ensures Others(Keyed(lines)) == Others(lines)
  {
    KeyLine("");
    assert KEY + "" == KEY;
    hide IsWatchlistLine;
    OthersOne(KEY);
    OthersConcat(lines, [KEY]);
  }
}
