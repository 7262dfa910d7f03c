/** Text as lines: Python's `splitlines`, writing lines back, and what a written line is read back as. */
module TextLines {
  import opened Watchlist

  // ---- Specification -------------------------------------------------------

  /** The characters at which Python's `splitlines` ends a line; reading a text file adds none to them. */
  predicate Break(c: char) {
    || '\n' <= c <= '\r' || '\U{1c}' <= c <= '\U{1e}' || c == '\U{85}' || c == '\U{2028}' || c == '\U{2029}'
  }

  predicate Unbroken(s: string) {
    forall i :: 0 <= i < |s| ==> !Break(s[i])
  }

  /** The position of the first line break, or the length if there is none. */
  function LineEnd(s: string): (k: nat)
    ensures k <= |s| && (k < |s| ==> Break(s[k]))
    ensures forall i :: 0 <= i < k ==> !Break(s[i])
  {
    if s == [] || Break(s[0]) then 0 else 1 + LineEnd(s[1..])
  }

  /** Carriage return and line feed together end one line. */
  function BreakLength(s: string, k: nat): nat
    requires k < |s|
  {
    if s[k] == '\r' && k + 1 < |s| && s[k + 1] == '\n' then 2 else 1
  }

  function SplitLines(s: string): seq<string>
    decreases |s|
  {
    var k := LineEnd(s);
    if s == [] then []
    else if k == |s| then [s]
    else [s[..k]] + SplitLines(s[k + BreakLength(s, k)..])
  }

  /** Every line followed by a line feed. */
  function Text(lines: seq<string>): string {
    if lines == [] then "" else lines[0] + ['\n'] + Text(lines[1..])
  }

  /** The value fits on its line: its only line break, if any, is a carriage return at its end, which the line feed
      written after it completes. */
  predicate OneLine(value: string) {
    forall i :: 0 <= i < |value| && Break(value[i]) ==> value[i] == '\r' && i == |value| - 1
  }

  // ---- Lines and text ------------------------------------------------------

  /** The first line of a text that has a line break, and what follows it. */
  lemma FirstLine(s: string, k: nat)
    requires k < |s| && Break(s[k]) && forall i :: 0 <= i < k ==> !Break(s[i])
    ensures LineEnd(s) == k
    ensures SplitLines(s) == [s[..k]] + SplitLines(s[k + BreakLength(s, k)..])
  {
    hide Break;
  }

  lemma LineFeedEnds(line: string)
    ensures LineEnd(line + ['\n']) <= |line|
    ensures LineEnd(line + ['\n']) < |line| ==> Break(line[LineEnd(line + ['\n'])])
  {
    var s := line + ['\n'];
    assert s[|line|] == '\n' && Break('\n');
    hide Break;
    assert LineEnd(s) < |line| ==> s[LineEnd(s)] == line[LineEnd(s)];
  }

  lemma BreakLineFeed()
    ensures Break('\n')
  {
  }

  lemma NoLines()
    ensures SplitLines([]) == []
  {
  }

  /** Text after a final line feed does not change the length of a line break. */
  lemma SameBreak(short: string, rest: string, k: nat)
    requires k < |short| && short[|short| - 1] == '\n'
    ensures BreakLength(short + rest, k) == BreakLength(short, k)
    ensures k + BreakLength(short, k) <= |short|
  {
  }

  /** Appending text after a final line feed leaves the first line as it is. */
  lemma SameFirstLine(a: string, rest: string) returns (line: string, next: nat)
    ensures 1 <= next <= |a| + 1
    ensures SplitLines(a + ['\n']) == [line] + SplitLines((a + ['\n'])[next..])
    ensures SplitLines(a + ['\n'] + rest) == [line] + SplitLines((a + ['\n'] + rest)[next..])
  {
    hide Break;
    hide SplitLines;
    var short := a + ['\n'];
    var long := short + rest;
    LineFeedEnds(a);
    BreakLineFeed();
    var k := LineEnd(short);
    assert short[k] == if k < |a| then a[k] else '\n';
    assert forall i :: 0 <= i <= k ==> long[i] == short[i];
    FirstLine(short, k);
    FirstLine(long, k);
    SameBreak(short, rest, k);
    line, next := short[..k], k + BreakLength(short, k);
    assert long[..k] == line;
  }

  /** A line feed separates whatever stands before it from whatever follows. */
  lemma {:induction false} SplitAtLineFeed(a: string, rest: string)
    ensures SplitLines(a + ['\n'] + rest) == SplitLines(a + ['\n']) + SplitLines(rest)
    decreases |a|
  {
    hide SplitLines;
    var line, next := SameFirstLine(a, rest);
    var short := a + ['\n'];
    var long := short + rest;
    if next <= |a| {
      SplitAtLineFeed(a[next..], rest);
      assert short[next..] == a[next..] + ['\n'];
      assert long[next..] == a[next..] + ['\n'] + rest;
    } else {
      assert short[next..] == [];
      assert long[next..] == rest;
      NoLines();
    }
  }

  lemma UnbrokenLine(line: string)
    requires Unbroken(line)
    ensures SplitLines(line + ['\n']) == [line]
  {
    var s := line + ['\n'];
    BreakLineFeed();
    hide Break;
    FirstLine(s, |line|);
    assert s[..|line|] == line;
    assert s[|line| + BreakLength(s, |line|)..] == [];
  }

  lemma {:induction false} LinesUnbroken(s: string)
    ensures forall line :: line in SplitLines(s) ==> Unbroken(line)
    decreases |s|
  {
    hide Break;
    var k := LineEnd(s);
    if k < |s| {
      LinesUnbroken(s[k + BreakLength(s, k)..]);
    } else {
      assert s[..k] == s;
    }
  }

  lemma SomeLine(s: string)
    ensures SplitLines(s) == [] <==> s == []
  {
  }

  /** Nothing follows the first line of a written line exactly when it fits on one line. */
  lemma NothingFollows(line: string, k: nat)
    requires k <= |line| && (forall i :: 0 <= i < k ==> !Break(line[i])) && (k < |line| ==> Break(line[k]))
    ensures k + BreakLength(line + ['\n'], k) == |line| + 1 <==> OneLine(line)
  {
    hide Break;
    var s := line + ['\n'];
    assert s[k] == if k < |line| then line[k] else '\n';
    assert k + 1 < |s| ==> s[k + 1] == if k + 1 < |line| then line[k + 1] else '\n';
  }

  /** How a written line is read back. */
  lemma OneLineIff(line: string)
    ensures var s := line + ['\n'];
            var k := LineEnd(s);
            && k <= |line| && SplitLines(s) == [line[..k]] + SplitLines(s[k + BreakLength(s, k)..])
            && (SplitLines(s[k + BreakLength(s, k)..]) == [] <==> OneLine(line))
  {
    hide Break;
    hide SplitLines;
    hide OneLine;
    var s := line + ['\n'];
    var k := LineEnd(s);
    LineFeedEnds(line);
    BreakLineFeed();
    assert s[k] == if k < |line| then line[k] else '\n';
    FirstLine(s, k);
    assert s[..k] == line[..k];
    SomeLine(s[k + BreakLength(s, k)..]);
    assert forall i :: 0 <= i < k ==> line[i] == s[i];
    NothingFollows(line, k);
  }

  /** What is read back after writing lines. */
  function Reread(lines: seq<string>): seq<string> {
    if lines == [] then [] else SplitLines(lines[0] + ['\n']) + Reread(lines[1..])
  }

  lemma {:induction false} TextReread(lines: seq<string>)
    ensures SplitLines(Text(lines)) == Reread(lines)
  {
    if lines != [] {
      SplitAtLineFeed(lines[0], Text(lines[1..]));
      TextReread(lines[1..]);
    }
  }

  lemma {:induction false} TextConcat(a: seq<string>, b: seq<string>)
    ensures Text(a + b) == Text(a) + Text(b)
  {
    if a == [] {
      assert a + b == b;
    } else {
      assert (a + b)[1..] == a[1..] + b;
      TextConcat(a[1..], b);
      assert Text(a + b) == a[0] + ['\n'] + (Text(a[1..]) + Text(b));
    }
  }

  lemma {:induction false} JoinIsText(lines: seq<string>)
    requires lines != []
    ensures Join(lines, '\n') + ['\n'] == Text(lines)
  {
    if |lines| > 1 {
      JoinIsText(lines[1..]);
      assert Join(lines, '\n') + ['\n'] == lines[0] + ['\n'] + (Join(lines[1..], '\n') + ['\n']);
    } else {
      assert Text(lines[1..]) == "";
    }
  }

  // ---- A line behind a key -------------------------------------------------

  lemma OneLineAfter(key: string, value: string)
    requires Unbroken(key)
    ensures OneLine(key + value) <==> OneLine(value)
  {
    hide Break;
    var line := key + value;
    assert forall i :: 0 <= i < |key| ==> line[i] == key[i];
    assert forall i :: |key| <= i < |line| ==> line[i] == value[i - |key|];
    if OneLine(line) {
      forall i | 0 <= i < |value| && Break(value[i]) ensures value[i] == '\r' && i == |value| - 1 {
        assert value[i] == line[i + |key|];
      }
    }
  }

  lemma EndAfterKey(key: string, s: string)
    requires Unbroken(key) && key <= s
    ensures |key| <= LineEnd(s)
  {
    hide Break;
    assert forall i :: 0 <= i < |key| ==> s[i] == key[i];
  }

  lemma KeyIsPrefix(key: string, value: string)
    ensures key <= key + value + ['\n']
  {
  }

  lemma HeadAfter(key: string, head: string, value: string, k: nat)
    requires |key| <= k <= |key + value| && (key + value)[..k] == key + head
    requires Chopped(key + value) == key + Chopped(value) && k == |Chopped(key + value)|
    ensures head == Chopped(value)
  {
    assert (key + value)[..k] == Chopped(key + value);
    assert head == (key + head)[|key|..];
    assert Chopped(value) == (key + Chopped(value))[|key|..];
  }

  lemma TakeAfter(key: string, value: string, k: nat) returns (head: string)
    requires |key| <= k <= |key + value|
    ensures (key + value)[..k] == key + head
  {
    head := value[..k - |key|];
  }

  /** The text without a final carriage return. */
  function Chopped(s: string): string {
    if s != [] && s[|s| - 1] == '\r' then s[..|s| - 1] else s
  }

  lemma EndOfOneLine(line: string)
    requires OneLine(line)
    ensures LineEnd(line + ['\n']) == |Chopped(line)|
  {
    LineFeedEnds(line);
    var k := LineEnd(line + ['\n']);
    assert Break('\r');
    hide Break;
    if line != [] && line[|line| - 1] == '\r' {
      assert (line + ['\n'])[|line| - 1] == '\r';
    }
  }

  lemma ChoppedAfter(key: string, value: string)
    requires Unbroken(key)
    ensures Chopped(key + value) == key + Chopped(value)
  {
    assert Break('\r');
    hide Break;
    if value == [] {
      assert key + value == key;
    }
  }

  /** A keyed line as it is read back: a first line with the key, and the lines that broke off. */
  lemma KeyedLine(key: string, value: string) returns (head: string, tail: seq<string>)
    requires Unbroken(key)
    ensures SplitLines(key + value + ['\n']) == [key + head] + tail
    ensures tail == [] <==> OneLine(value)
    ensures OneLine(value) ==> head == Chopped(value)
  {
    ChoppedAfter(key, value);
    hide Break;
    hide SplitLines;
    hide OneLine;
    hide Unbroken;
    var line := key + value;
    var s := line + ['\n'];
    OneLineIff(line);
    OneLineAfter(key, value);
    KeyIsPrefix(key, value);
    EndAfterKey(key, s);
    var k := LineEnd(s);
    head := TakeAfter(key, value, k);
    if OneLine(value) {
      EndOfOneLine(line);
      HeadAfter(key, head, value, k);
    }
    tail := SplitLines(s[k + BreakLength(s, k)..]);
  }
}
