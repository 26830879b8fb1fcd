/** Following a remote log file across crashes: the reader keeps an offset and an unfinished line in
    memory, and only the offset on disk. */
module LogTail {
  import opened LogLines

  /** 512 KB. */
  const FETCH_SIZE: nat := 524288

  /** A line printed, and where in the file it starts. */
  datatype Emitted = Emitted(pos: nat, line: Line)

  /** An incarnation that crashed: what it printed, the offset it left on disk, and how far it had got. */
  datatype Past = Past(printed: seq<Emitted>, saved: nat, reached: nat)

  datatype Tail = Tail(
    file: seq<byte>,
    offset: nat,
    buf: seq<byte>,
    saved: nat,
    printed: seq<Emitted>,
    past: seq<Past>)

  /** `lines` are printed after `es`, and the first of them starts at `pos`. */
  function Print(es: seq<Emitted>, pos: nat, lines: seq<Line>): seq<Emitted>
    decreases |lines|
  {
    if lines == [] then es
    else Print(es + [Emitted(pos, lines[0])], pos + |lines[0]| + 1, lines[1..])
  }

  // ---------------------------------------------------------------- steps

  /** `size` bytes are at hand: whole lines are printed, the rest is kept. */
  function Advance(s: Tail, size: nat, lines: seq<Line>, rest: seq<byte>): Tail
    requires |rest| <= size
  {
    s.(offset := s.offset + size - |rest|, buf := rest, printed := Print(s.printed, s.offset, lines))
  }

  /** `lines` and `rest` are what splitting `data` gives (`LogLines.SplitUnique`). */
  ghost predicate Splits(data: seq<byte>, lines: seq<Line>, rest: seq<byte>) {
    AreLines(lines) && Unbroken(rest) && data == Text(lines) + rest
  }

  datatype Event =
    | Grow(more: seq<byte>)   // the job writes
    | Fetch(size: nat, lines: seq<Line>, rest: seq<byte>)
                              // bytes that follow those already read; none for an error
    | Save
    | Restart                 // crash, then recovery from disk

  ghost predicate Allowed(s: Tail, e: Event) {
    e.Fetch? ==>
      var at := s.offset + |s.buf|;
      && e.size <= FETCH_SIZE
      && at + e.size <= |s.file|
      && Splits(s.buf + s.file[at..at + e.size], e.lines, e.rest)
  }

  ghost function Step(s: Tail, e: Event): Tail
    requires Allowed(s, e)
  {
    match e
    case Grow(more) => s.(file := s.file + more)
    case Fetch(size, lines, rest) => Advance(s, |s.buf| + size, lines, rest)
    case Save => s.(saved := s.offset)
    case Restart => s.(offset := s.saved, buf := [], printed := [], past := s.past + [Past(s.printed, s.saved, s.offset)])
  }

  ghost predicate Run(run: seq<Tail>, events: seq<Event>) {
    && |run| == |events| + 1
    && run[0] == Tail(run[0].file, 0, [], 0, [], [])
    && forall k {:trigger events[k]} :: 0 <= k < |events| ==>
         Allowed(run[k], events[k]) && run[k + 1] == Step(run[k], events[k])
  }

  // ---------------------------------------------------------------- what every step keeps

  predicate LineStart(file: seq<byte>, p: nat) {
    p <= |file| && (p > 0 ==> file[p - 1] == NEWLINE)
  }

  /** The file holds this whole line at this place. */
  predicate LineAt(file: seq<byte>, e: Emitted) {
    && LineStart(file, e.pos)
    && e.pos + |e.line| < |file|
    && file[e.pos..e.pos + |e.line|] == e.line
    && Unbroken(e.line)
    && file[e.pos + |e.line|] == NEWLINE
  }

  /** `es` are all the lines of the file from `a` to `b`, in order. */
  predicate Passed(file: seq<byte>, es: seq<Emitted>, a: nat, b: nat) {
    if es == [] then a == b
    else
      var e := es[|es| - 1];
      LineAt(file, e) && b == e.pos + |e.line| + 1 && Passed(file, es[..|es| - 1], a, e.pos)
  }

  /** Where the incarnation after these began to read. */
  function Began(past: seq<Past>): nat {
    if past == [] then 0 else past[|past| - 1].saved
  }

  predicate PastOk(file: seq<byte>, past: seq<Past>) {
    past != [] ==>
      var before, p := past[..|past| - 1], past[|past| - 1];
      && PastOk(file, before)
      && Passed(file, p.printed, Began(before), p.reached)
      && p.saved <= p.reached <= |file|
      && LineStart(file, p.saved)
  }

  predicate BufferOk(s: Tail) {
    && LineStart(s.file, s.offset)
    && s.offset + |s.buf| <= |s.file|
    && s.buf == s.file[s.offset..s.offset + |s.buf|]
    && Unbroken(s.buf)
  }

  predicate Inv(s: Tail) {
    && BufferOk(s)
    && LineStart(s.file, s.saved) && s.saved <= s.offset
    && PastOk(s.file, s.past)
    && Passed(s.file, s.printed, Began(s.past), s.offset)
  }

  lemma {:induction false} PassedAfterGrowth(file: seq<byte>, more: seq<byte>, es: seq<Emitted>, a: nat, b: nat)
    requires Passed(file, es, a, b)
    ensures Passed(file + more, es, a, b)
  {
    if es != [] {
      var e := es[|es| - 1];
      assert (file + more)[e.pos..e.pos + |e.line|] == file[e.pos..e.pos + |e.line|];
      PassedAfterGrowth(file, more, es[..|es| - 1], a, e.pos);
    }
  }

  lemma {:induction false} PastAfterGrowth(file: seq<byte>, more: seq<byte>, past: seq<Past>)
    requires PastOk(file, past)
    ensures PastOk(file + more, past)
  {
    if past != [] {
      var before, p := past[..|past| - 1], past[|past| - 1];
      PastAfterGrowth(file, more, before);
      PassedAfterGrowth(file, more, p.printed, Began(before), p.reached);
    }
  }

  lemma GrowKeepsInv(s: Tail, more: seq<byte>)
    requires Inv(s)
    ensures Inv(Step(s, Grow(more)))
  {
    PastAfterGrowth(s.file, more, s.past);
    PassedAfterGrowth(s.file, more, s.printed, Began(s.past), s.offset);
    assert (s.file + more)[s.offset..s.offset + |s.buf|] == s.file[s.offset..s.offset + |s.buf|];
  }

  /** A slice that is put together from two parts. */
  lemma SliceParts<T>(s: seq<T>, a: nat, c: nat, left: seq<T>, right: seq<T>)
    requires a <= c <= |s| && s[a..c] == left + right
    ensures s[a..a + |left|] == left && s[a + |left|..c] == right
  {
    assert s[a..a + |left|] == s[a..c][..|left|];
    assert s[a + |left|..c] == s[a..c][|left|..];
  }

  /** From `a` on, the file holds these lines. */
  predicate Holds(file: seq<byte>, a: nat, lines: seq<Line>)
    decreases |lines|
  {
    if lines == [] then LineStart(file, a)
    else LineAt(file, Emitted(a, lines[0])) && Holds(file, a + |lines[0]| + 1, lines[1..])
  }

  lemma {:induction false} TextHolds(file: seq<byte>, a: nat, b: nat, lines: seq<Line>)
    requires a <= b <= |file| && LineStart(file, a)
    requires AreLines(lines) && file[a..b] == Text(lines)
    ensures Holds(file, a, lines)
    decreases |lines|
  {
    if lines != [] {
      var line, more := lines[0], lines[1..];
      var next := a + |line| + 1;
      SliceParts(file, a, b, line + [NEWLINE], Text(more));
      SliceParts(file, a, next, line, [NEWLINE]);
      assert file[a + |line|..next][0] == NEWLINE;
      TextHolds(file, next, b, more);
    }
  }

  /** Whole lines read on from where the reader is. */
  lemma {:induction false} PassesOn(file: seq<byte>, es: seq<Emitted>, a: nat, b: nat, lines: seq<Line>)
    requires Passed(file, es, a, b) && Holds(file, b, lines)
    ensures Passed(file, Print(es, b, lines), a, b + |Text(lines)|)
    ensures LineStart(file, b + |Text(lines)|)
    decreases |lines|
  {
    if lines != [] {
      var e := Emitted(b, lines[0]);
      PassesOne(file, es, a, e);
      PassesOn(file, es + [e], a, b + |lines[0]| + 1, lines[1..]);
    }
  }

  lemma PassesOne(file: seq<byte>, es: seq<Emitted>, a: nat, e: Emitted)
    requires Passed(file, es, a, e.pos) && LineAt(file, e)
    ensures Passed(file, es + [e], a, e.pos + |e.line| + 1)
  {
    assert (es + [e])[..|es|] == es;
  }

  lemma SliceJoin<T>(s: seq<T>, a: nat, b: nat, c: nat)
    requires a <= b <= c <= |s|
    ensures s[a..c] == s[a..b] + s[b..c]
  {
  }

  /** The bytes at hand after a fetch lie in the file where the reader thinks they do. */
  lemma BytesAtHand(s: Tail, size: nat, text: seq<byte>, rest: seq<byte>)
    requires BufferOk(s) && s.offset + |s.buf| + size <= |s.file|
    requires s.buf + s.file[s.offset + |s.buf|..s.offset + |s.buf| + size] == text + rest
    ensures |text| + |rest| == |s.buf| + size
    ensures s.file[s.offset..s.offset + |text|] == text
    ensures s.file[s.offset + |text|..s.offset + |text| + |rest|] == rest
  {
    var at := s.offset + |s.buf|;
    SliceJoin(s.file, s.offset, at, at + size);
    SliceParts(s.file, s.offset, at + size, text, rest);
  }

  /** The text of the lines brings the reader to the next line start. */
  lemma FetchPasses(s: Tail, size: nat, lines: seq<Line>, rest: seq<byte>)
    requires BufferOk(s) && Allowed(s, Fetch(size, lines, rest))
    ensures Holds(s.file, s.offset, lines)
    ensures |Text(lines)| + |rest| == |s.buf| + size
    ensures rest == s.file[s.offset + |Text(lines)|..s.offset + |Text(lines)| + |rest|]
  {
    BytesAtHand(s, size, Text(lines), rest);
    TextHolds(s.file, s.offset, s.offset + |Text(lines)|, lines);
  }

  lemma FetchKeepsInv(s: Tail, size: nat, lines: seq<Line>, rest: seq<byte>)
    requires Inv(s) && Allowed(s, Fetch(size, lines, rest))
    ensures Inv(Step(s, Fetch(size, lines, rest)))
  {
    FetchPasses(s, size, lines, rest);
    PassesOn(s.file, s.printed, Began(s.past), s.offset, lines);
  }

  lemma PastThen(file: seq<byte>, past: seq<Past>, p: Past)
    requires PastOk(file, past) && Passed(file, p.printed, Began(past), p.reached)
    requires p.saved <= p.reached <= |file| && LineStart(file, p.saved)
    ensures PastOk(file, past + [p]) && Began(past + [p]) == p.saved
  {
    assert (past + [p])[..|past|] == past;
  }

  lemma RestartKeepsInv(s: Tail)
    requires Inv(s)
    ensures Inv(Step(s, Restart))
  {
    PastThen(s.file, s.past, Past(s.printed, s.saved, s.offset));
    assert s.file[s.saved..s.saved] == [];
  }

  lemma {:induction false} RunKeepsInv(run: seq<Tail>, events: seq<Event>, k: nat)
    requires Run(run, events) && k < |run|
    ensures Inv(run[k])
  {
    if k > 0 {
      RunKeepsInv(run, events, k - 1);
      var s, e := run[k - 1], events[k - 1];
      assert run[k - 1 + 1] == Step(s, e);
      match e
      case Grow(more) => GrowKeepsInv(s, more);
      case Fetch(size, lines, rest) => FetchKeepsInv(s, size, lines, rest);
      case Save =>
      case Restart => RestartKeepsInv(s);
    }
  }

  /** The offset on disk is always at a line start and never ahead of the reader.  The present
      incarnation has printed the lines between where it began and where it is, all of them and in
      the order of the file. */
  lemma IncarnationInOrder(run: seq<Tail>, events: seq<Event>, k: nat)
    requires Run(run, events) && k < |run|
    ensures var s := run[k];
            && LineStart(s.file, s.saved) && s.saved <= s.offset
            && s.offset + |s.buf| <= |s.file| && s.buf == s.file[s.offset..s.offset + |s.buf|]
            && Passed(s.file, s.printed, Began(s.past), s.offset)
  {
    RunKeepsInv(run, events, k);
  }

  /** A restarted reader begins where the last save left it, and nowhere else. */
  lemma {:induction false} ResumesAtLastSave(run: seq<Tail>, events: seq<Event>, j: nat, k: nat)
    requires Run(run, events) && j < k < |run| && events[j].Save?
    requires forall i {:trigger events[i]} :: j < i < k ==> !events[i].Save?
    ensures run[k].saved == run[j].offset
    ensures events[k - 1].Restart? ==> run[k].offset == run[j].offset && run[k].buf == [] && run[k].printed == []
  {
    assert run[k - 1 + 1] == Step(run[k - 1], events[k - 1]);
    if j < k - 1 {
      ResumesAtLastSave(run, events, j, k - 1);
    }
  }

  /** What is printed next starts where the line before ended, and stands in the file. */
  lemma {:induction false} PassedInOrder(file: seq<byte>, es: seq<Emitted>, a: nat, b: nat, i: nat)
    requires Passed(file, es, a, b) && i < |es|
    ensures LineAt(file, es[i])
    ensures es[i].pos == if i == 0 then a else es[i - 1].pos + |es[i - 1].line| + 1
  {
    var n := |es| - 1;
    if i < n {
      PassedInOrder(file, es[..n], a, es[n].pos, i);
    } else if i > 0 {
      assert es[..n][n - 1] == es[n - 1];
    }
  }

  // ---------------------------------------------------------------- how often each line comes out

  /** How many of the printed lines start at `p`. */
  function Count(es: seq<Emitted>, p: nat): nat {
    if es == [] then 0
    else Count(es[..|es| - 1], p) + if es[|es| - 1].pos == p then 1 else 0
  }

  function CountPast(past: seq<Past>, p: nat): nat {
    if past == [] then 0
    else CountPast(past[..|past| - 1], p) + Count(past[|past| - 1].printed, p)
  }

  /** How many crashes threw the reader back over `p`. */
  function ThrownBack(past: seq<Past>, p: nat): nat {
    if past == [] then 0
    else
      var last := past[|past| - 1];
      ThrownBack(past[..|past| - 1], p) + if last.saved <= p < last.reached then 1 else 0
  }

  /** No line starts inside a line. */
  lemma NoStartInside(file: seq<byte>, e: Emitted, p: nat)
    requires LineAt(file, e) && LineStart(file, p)
    ensures !(e.pos < p <= e.pos + |e.line|)
  {
    assert forall q :: e.pos <= q < e.pos + |e.line| ==> file[q] == file[e.pos..e.pos + |e.line|][q - e.pos];
  }

  lemma {:induction false} CountPassed(file: seq<byte>, es: seq<Emitted>, a: nat, b: nat, p: nat)
    requires Passed(file, es, a, b) && LineStart(file, p)
    ensures a <= b && Count(es, p) == if a <= p < b then 1 else 0
  {
    if es != [] {
      var e := es[|es| - 1];
      CountPassed(file, es[..|es| - 1], a, e.pos, p);
      NoStartInside(file, e, p);
    }
  }

  lemma {:induction false} CountPastExact(file: seq<byte>, past: seq<Past>, p: nat)
    requires PastOk(file, past) && LineStart(file, p)
    ensures CountPast(past, p) == ThrownBack(past, p) + if p < Began(past) then 1 else 0
  {
    if past != [] {
      var before, last := past[..|past| - 1], past[|past| - 1];
      CountPastExact(file, before, p);
      CountPassed(file, last.printed, Began(before), last.reached, p);
    }
  }

  /** The exact account: the line that starts at `p` has come out once if the reader has passed it,
      and once more for every crash that threw the reader back over it. */
  lemma EmissionsExact(run: seq<Tail>, events: seq<Event>, k: nat, p: nat)
    requires Run(run, events) && k < |run| && LineStart(run[k].file, p)
    ensures var s := run[k];
            CountPast(s.past, p) + Count(s.printed, p) == ThrownBack(s.past, p) + if p < s.offset then 1 else 0
  {
    RunKeepsInv(run, events, k);
    var s := run[k];
    CountPastExact(s.file, s.past, p);
    CountPassed(s.file, s.printed, Began(s.past), s.offset, p);
  }

  /** If every crash comes right after a save, every line that was passed came out exactly once. */
  lemma ExactlyOnce(run: seq<Tail>, events: seq<Event>, k: nat, p: nat)
    requires Run(run, events) && k < |run| && LineStart(run[k].file, p)
    requires forall i :: 0 <= i < |run[k].past| ==> run[k].past[i].saved == run[k].past[i].reached
    ensures CountPast(run[k].past, p) + Count(run[k].printed, p) == if p < run[k].offset then 1 else 0
  {
    EmissionsExact(run, events, k, p);
    NeverThrownBack(run[k].past, p);
  }

  lemma {:induction false} NeverThrownBack(past: seq<Past>, p: nat)
    requires forall i :: 0 <= i < |past| ==> past[i].saved == past[i].reached
    ensures ThrownBack(past, p) == 0
  {
    if past != [] {
      NeverThrownBack(past[..|past| - 1], p);
    }
  }

  // ---------------------------------------------------------------- catching up

  function Min(a: int, b: int): int {
    if a < b then a else b
  }

  /** The event fetches as much as is asked for and the file has. */
  predicate Full(s: Tail, e: Event) {
    e.Fetch? && e.size == Min(FETCH_SIZE, |s.file| - s.offset - |s.buf|)
  }

  /** How far the reader has read, the unfinished line included. */
  function ReadTo(s: Tail): nat {
    s.offset + |s.buf|
  }

  predicate Failed(e: Event) {
    e.Fetch? && e.size == 0
  }

  function FullFetches(run: seq<Tail>, events: seq<Event>, i: nat, k: nat): nat
    requires i <= k <= |events| && k <= |run|
  {
    if i == k then 0 else FullFetches(run, events, i, k - 1) + if Full(run[k - 1], events[k - 1]) then 1 else 0
  }

  /** Steps that neither change the file nor throw the reader back. */
  predicate Steady(s: Tail, e: Event) {
    e.Save? || Failed(e) || Full(s, e)
  }

  lemma SteadyStep(s: Tail, e: Event)
    requires Allowed(s, e) && Steady(s, e) && ReadTo(s) <= |s.file|
    ensures Step(s, e).file == s.file
    ensures ReadTo(Step(s, e)) == if Full(s, e) then Min(|s.file|, ReadTo(s) + FETCH_SIZE) else ReadTo(s)
  {
    if e.Fetch? {
      assert |e.rest| <= |s.buf| + e.size;
    }
  }

  lemma ReadsInside(run: seq<Tail>, events: seq<Event>, k: nat)
    requires Run(run, events) && k < |run|
    ensures ReadTo(run[k]) <= |run[k].file|
  {
    RunKeepsInv(run, events, k);
  }

  /** While the file does not grow and the reader does not crash, each full fetch reads 512 KB more,
      until the end of the file; saves and failed fetches in between take nothing back. */
  lemma {:induction false} CatchesUp(run: seq<Tail>, events: seq<Event>, i: nat, k: nat)
    requires Run(run, events) && i <= k < |run|
    requires forall j {:trigger events[j]} :: i <= j < k ==> Steady(run[j], events[j])
    ensures run[k].file == run[i].file
    ensures ReadTo(run[k]) == Min(|run[i].file|, ReadTo(run[i]) + 524288 * FullFetches(run, events, i, k))
  {
    ReadsInside(run, events, i);
    if i < k {
      CatchesUp(run, events, i, k - 1);
      var s, e := run[k - 1], events[k - 1];
      assert Steady(s, e) && run[k - 1 + 1] == Step(s, e);
      SteadyStep(s, e);
      OneMore(FullFetches(run, events, i, k - 1));
    }
  }

  lemma OneMore(n: nat)
    ensures FETCH_SIZE * (n + 1) == FETCH_SIZE * n + FETCH_SIZE
  {
  }
}
