/** Splitting a byte stream into lines, one chunk at a time. */
module LogLines {

  newtype byte = b: int | 0 <= b < 256

  const NEWLINE: byte := 10

  type Line = seq<byte>

  /** No newline inside. */
  predicate Unbroken(data: seq<byte>) {
    forall i :: 0 <= i < |data| ==> data[i] != NEWLINE
  }

  /** Index of the first newline, or the length if there is none. */
  function LineEnd(data: seq<byte>): (n: nat)
    ensures n <= |data|
    ensures forall i :: 0 <= i < n ==> data[i] != NEWLINE
    ensures n < |data| ==> data[n] == NEWLINE
  {
    if data == [] || data[0] == NEWLINE then 0
    else
      var n := LineEnd(data[1..]);
      assert forall i :: 0 < i < n + 1 ==> data[i] == data[1..][i - 1];
      n + 1
  }

  function CompleteLines(data: seq<byte>): seq<Line>
    decreases |data|
  {
    var n := LineEnd(data);
    if n == |data| then [] else [data[..n]] + CompleteLines(data[n + 1..])
  }

  function Remainder(data: seq<byte>): (r: seq<byte>)
    ensures |r| <= |data|
    decreases |data|
  {
    var n := LineEnd(data);
    if n == |data| then data else Remainder(data[n + 1..])
  }

  /** The text of some lines, each closed by a newline. */
  function Text(lines: seq<Line>): seq<byte> {
    if lines == [] then [] else lines[0] + [NEWLINE] + Text(lines[1..])
  }

  ghost predicate AreLines(lines: seq<Line>) {
    forall i :: 0 <= i < |lines| ==> Unbroken(lines[i])
  }

  lemma LineEndOf(line: Line, more: seq<byte>)
    requires Unbroken(line)
    ensures LineEnd(line + [NEWLINE] + more) == |line|
  {
    var data := line + [NEWLINE] + more;
    if line != [] {
      assert data[1..] == line[1..] + [NEWLINE] + more;
      LineEndOf(line[1..], more);
    }
  }

  lemma NoLineEnd(data: seq<byte>)
    requires Unbroken(data)
    ensures CompleteLines(data) == [] && Remainder(data) == data
  {
    assert LineEnd(data) == |data|;
  }

  /** One line is cut off the front. */
  lemma CutFirst(line: Line, more: seq<byte>)
    requires Unbroken(line)
    ensures CompleteLines(line + [NEWLINE] + more) == [line] + CompleteLines(more)
    ensures Remainder(line + [NEWLINE] + more) == Remainder(more)
  {
    var data := line + [NEWLINE] + more;
    LineEndOf(line, more);
    assert data[..|line|] == line && data[|line| + 1..] == more;
  }

  lemma TextFirst(line: Line, lines: seq<Line>)
    ensures Text([line] + lines) == line + [NEWLINE] + Text(lines)
  {
    assert ([line] + lines)[1..] == lines;
  }

  lemma CutData(data: seq<byte>) returns (line: Line, more: seq<byte>)
    requires LineEnd(data) < |data|
    ensures Unbroken(line) && |more| < |data| && data == line + [NEWLINE] + more
  {
    var n := LineEnd(data);
    line, more := data[..n], data[n + 1..];
    assert data == line + [NEWLINE] + more;
  }

  /** Nothing is lost or added by splitting. */
  lemma {:induction false} SplitKeepsText(data: seq<byte>)
    ensures AreLines(CompleteLines(data)) && Unbroken(Remainder(data))
    ensures Text(CompleteLines(data)) + Remainder(data) == data
    decreases |data|
  {
    if LineEnd(data) < |data| {
      var line, more := CutData(data);
      SplitKeepsText(more);
      CutFirst(line, more);
      TextFirst(line, CompleteLines(more));
      Regroup(line, Text(CompleteLines(more)), Remainder(more));
    }
  }

  lemma Regroup(line: Line, text: seq<byte>, rest: seq<byte>)
    ensures line + [NEWLINE] + text + rest == line + [NEWLINE] + (text + rest)
  {
    Associate(line + [NEWLINE], text, rest);
  }

  /** One more line at the end. */
  lemma TextThen(lines: seq<Line>, line: Line, rest: seq<byte>)
    ensures Text(lines + [line]) + rest == Text(lines) + (line + [NEWLINE] + rest)
  {
    TextOfBoth(lines, [line]);
    TextFirst(line, []);
    assert [line] + [] == [line];
    assert line + [NEWLINE] + [] == line + [NEWLINE];
    Associate(Text(lines), line + [NEWLINE], rest);
  }

  /** It is the only way to cut the text into whole lines and an unfinished one. */
  lemma {:induction false} SplitUnique(lines: seq<Line>, rest: seq<byte>)
    requires AreLines(lines) && Unbroken(rest)
    ensures CompleteLines(Text(lines) + rest) == lines
    ensures Remainder(Text(lines) + rest) == rest
  {
    if lines == [] {
      assert Text(lines) + rest == rest;
      NoLineEnd(rest);
    } else {
      var line, more := lines[0], lines[1..];
      SplitUnique(more, rest);
      Regroup(line, Text(more), rest);
      CutFirst(line, Text(more) + rest);
      assert lines == [line] + more;
    }
  }

  lemma {:induction false} TextOfBoth(a: seq<Line>, b: seq<Line>)
    ensures Text(a + b) == Text(a) + Text(b)
  {
    if a == [] {
      assert a + b == b;
    } else {
      TextOfBoth(a[1..], b);
      assert a + b == [a[0]] + (a[1..] + b);
      TextFirst(a[0], a[1..] + b);
      Regroup(a[0], Text(a[1..]), Text(b));
    }
  }

  /** Splitting a chunk first and carrying its unfinished line over gives the same lines. */
  lemma SplitInTwo(a: seq<byte>, b: seq<byte>)
    ensures CompleteLines(a + b) == CompleteLines(a) + CompleteLines(Remainder(a) + b)
    ensures Remainder(a + b) == Remainder(Remainder(a) + b)
  {
    var first, second := CompleteLines(a), CompleteLines(Remainder(a) + b);
    var rest := Remainder(Remainder(a) + b);
    SplitKeepsText(a);
    SplitKeepsText(Remainder(a) + b);
    TextOfBoth(first, second);
    Associate(Text(first), Remainder(a), b);
    Associate(Text(first), Text(second), rest);
    SplitUnique(first + second, rest);
  }

  lemma Associate(a: seq<byte>, b: seq<byte>, c: seq<byte>)
    ensures (a + b) + c == a + (b + c)
  {
  }

  // ---------------------------------------------------------------- reading chunk by chunk

  function Concat(chunks: seq<seq<byte>>): seq<byte> {
    if chunks == [] then [] else Concat(chunks[..|chunks| - 1]) + chunks[|chunks| - 1]
  }

  datatype Reading = Reading(lines: seq<Line>, rest: seq<byte>)

  /** What a reader that keeps the unfinished line has seen after these chunks. */
  function ReadChunks(chunks: seq<seq<byte>>): Reading {
    if chunks == [] then Reading([], [])
    else
      var before := ReadChunks(chunks[..|chunks| - 1]);
      var data := before.rest + chunks[|chunks| - 1];
      Reading(before.lines + CompleteLines(data), Remainder(data))
  }

  /** The lines and the unfinished line depend on the bytes alone, not on how they were cut up. */
  lemma {:induction false} ChunksDoNotMatter(chunks: seq<seq<byte>>)
    ensures ReadChunks(chunks) == Reading(CompleteLines(Concat(chunks)), Remainder(Concat(chunks)))
  {
    if chunks != [] {
      var n := |chunks| - 1;
      ChunksDoNotMatter(chunks[..n]);
      SplitInTwo(Concat(chunks[..n]), chunks[n]);
    }
  }
}
