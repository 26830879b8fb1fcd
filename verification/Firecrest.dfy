/** The remote session controller for FirecREST: log streaming, the saved file, start and stop.
    What the cluster and the file system answer is passed in. */
module Firecrest {
  import opened LogLines
  import LogTail
  import opened Jobs
  import opened Wrappers

  datatype Stream = Stdout | Stderr

  datatype SavedState = SavedState(
    jobID: JobId,
    stdoutPath: string,
    stderrPath: string,
    stdoutOffset: nat,
    stderrOffset: nat)

  /** state.json: unreadable or absent, not JSON, or a state. */
  datatype Contents = NoFile | NotJson | Json(state: SavedState)

  /** How writing the file ends.  A write that fails half-way leaves what it has written. */
  datatype Write = Written | NotWritten | HalfWritten

  /** `AnswerLost`: the cluster runs the job, but the controller gets an error. */
  datatype Submission = SetupFailed | NotSubmitted | AnswerLost(id: JobId) | Accepted(id: JobId)

  function Remembered(c: Contents): Disk {
    match c
    case NoFile => Missing
    case NotJson => Torn
    case Json(state) => if state.jobID == "" then Missing else Remembers(state.jobID)
  }

  datatype Printed = Printed(stream: Stream, line: Line)

  function Tag(stream: Stream, lines: seq<Line>): (tagged: seq<Printed>)
    ensures |tagged| == |lines|
    ensures forall i :: 0 <= i < |tagged| ==> tagged[i].stream == stream && tagged[i].line == lines[i]
  {
    seq(|lines|, i requires 0 <= i < |lines| => Printed(stream, lines[i]))
  }

  lemma TagOne(stream: Stream, lines: seq<Line>, line: Line)
    ensures Tag(stream, lines + [line]) == Tag(stream, lines) + [Printed(stream, line)]
  {
  }

  class StateFile {
    var contents: Contents

    constructor (contents: Contents)
      ensures this.contents == contents
    {
      this.contents := contents;
    }
  }

  class Controller {
    const file: StateFile
    var jobID: JobId
    var stdoutPath: string
    var stderrPath: string
    var stdoutOffset: nat
    var stderrOffset: nat
    var stdoutBuf: seq<byte>
    var stderrBuf: seq<byte>
    /** The standard output of the process. */
    var printed: seq<Printed>

    constructor (file: StateFile)
      ensures this.file == file && jobID == "" && stdoutPath == "" && stderrPath == ""
      ensures stdoutOffset == 0 && stderrOffset == 0 && stdoutBuf == [] && stderrBuf == [] && printed == []
    {
      this.file := file;
      jobID, stdoutPath, stderrPath := "", "", "";
      stdoutOffset, stderrOffset, stdoutBuf, stderrBuf := 0, 0, [], [];
      printed := [];
    }

    function Path(stream: Stream): string
      reads this
    {
      if stream.Stdout? then stdoutPath else stderrPath
    }

    function Offset(stream: Stream): nat
      reads this
    {
      if stream.Stdout? then stdoutOffset else stderrOffset
    }

    function Buf(stream: Stream): seq<byte>
      reads this
    {
      if stream.Stdout? then stdoutBuf else stderrBuf
    }

    function Snapshot(): SavedState
      reads this
    {
      SavedState(jobID, stdoutPath, stderrPath, stdoutOffset, stderrOffset)
    }

    /** Slurm writes both streams to one file unless told otherwise; that file is read once. */
    function StreamsToFetch(): (streams: seq<Stream>)
      reads this
      ensures Stdout in streams
      ensures forall i, j :: 0 <= i < j < |streams| ==> Path(streams[i]) != Path(streams[j])
      ensures Stderr in streams <==> stderrPath != "" && stderrPath != stdoutPath
    {
      if stderrPath != "" && stderrPath != stdoutPath then [Stdout, Stderr] else [Stdout]
    }

    /** One fetch of one stream.  With the bytes it had kept, the new ones split into the lines that
        come out and the unfinished line that is kept; the offset moves over the lines. */
    method FetchLogStream(stream: Stream, answer: Option<seq<byte>>)
      modifies this
      ensures Snapshot() == old(Snapshot()).(stdoutOffset := stdoutOffset, stderrOffset := stderrOffset)
      ensures answer.None? || answer.value == [] ==>
                printed == old(printed) && Offset(stream) == old(Offset(stream)) && Buf(stream) == old(Buf(stream))
      ensures answer.Some? && answer.value != [] ==>
                var data := old(Buf(stream)) + answer.value;
                && printed == old(printed) + Tag(stream, CompleteLines(data))
                && Buf(stream) == Remainder(data)
                && Offset(stream) + |Buf(stream)| == old(Offset(stream)) + |data|
      ensures stream.Stdout? ==> stderrOffset == old(stderrOffset) && stderrBuf == old(stderrBuf)
      ensures stream.Stderr? ==> stdoutOffset == old(stdoutOffset) && stdoutBuf == old(stdoutBuf)
    {
      if answer.None? || answer.value == [] {
        return;
      }
      var offset, buf := Offset(stream), Buf(stream) + answer.value;
      offset, buf := FlushLines(stream, offset, buf);
      if stream.Stdout? {
        stdoutOffset, stdoutBuf := offset, buf;
      } else {
        stderrOffset, stderrBuf := offset, buf;
      }
    }

    method FlushLines(stream: Stream, start: nat, data: seq<byte>) returns (offset: nat, buf: seq<byte>)
      modifies `printed
      ensures printed == old(printed) + Tag(stream, CompleteLines(data))
      ensures buf == Remainder(data)
      ensures offset + |buf| == start + |data|
    {
      offset, buf := start, data;
      ghost var lines := [];
      while true
        invariant AreLines(lines) && Text(lines) + buf == data
        invariant offset + |buf| == start + |data|
        invariant printed == old(printed) + Tag(stream, lines)
        decreases |buf|
      {
        var n := LineEnd(buf);
        if n == |buf| {
          break;
        }
        ghost var line, more := CutData(buf);
        TextThen(lines, line, more);
        TagOne(stream, lines, line);
        LineEndOf(line, more);
        assert buf[..n] == line && buf[n + 1..] == more;
        printed := printed + [Printed(stream, buf[..n])];
        assert printed == old(printed) + (Tag(stream, lines) + [Printed(stream, line)]);
        lines := lines + [line];
        buf, offset := buf[n + 1..], offset + n + 1;
      }
      SplitUnique(lines, buf);
    }

    method SaveState(write: Write) returns (ok: bool)
      modifies file
      ensures ok <==> jobID != "" && write.Written?
      ensures file.contents ==
              if jobID == "" || write.NotWritten? then old(file.contents)
              else if write.HalfWritten? then NotJson
              else Json(Snapshot())
    {
      if jobID == "" {
        return false;
      }
      match write
      case NotWritten => ok := false;
      case HalfWritten => file.contents := NotJson; ok := false;
      case Written => file.contents := Json(SavedState(jobID, stdoutPath, stderrPath, stdoutOffset, stderrOffset)); ok := true;
    }

    /** A file that cannot be read counts as no file; one that does not parse is an error. */
    method RecoverState() returns (ok: bool)
      modifies this
      ensures ok <==> !file.contents.NotJson?
      ensures unchanged(`stdoutBuf) && unchanged(`stderrBuf) && unchanged(`printed)
      ensures !file.contents.Json? ==> Snapshot() == old(Snapshot())
      ensures file.contents.Json? ==>
                Snapshot() == file.contents.state.(jobID := if file.contents.state.jobID != "" then file.contents.state.jobID else old(jobID))
    {
      match file.contents
      case NoFile => ok := true;
      case NotJson => ok := false;
      case Json(state) =>
        if state.jobID != "" {
          jobID := state.jobID;
        }
        stdoutPath, stderrPath := state.stdoutPath, state.stderrPath;
        stdoutOffset, stderrOffset := state.stdoutOffset, state.stderrOffset;
        ok := true;
    }

    /** A fresh process either takes up the job on disk or submits one.  `paths`: where Slurm says the
        streams go, or the default paths.  A start that fails after the job was accepted leaves a job
        that nothing on disk remembers. */
    method Start(submission: Submission, paths: (string, string), write: Write)
      returns (ok: bool, submitted: Option<JobId>)
      requires jobID == "" && (submission.Accepted? ==> submission.id != "")
      modifies this, file
      ensures unchanged(`stdoutBuf) && unchanged(`stderrBuf) && unchanged(`printed)
      ensures old(Remembered(file.contents)).Remembers? ==>
                && ok && submitted == None && file.contents == old(file.contents)
                && Snapshot() == file.contents.state && jobID != ""
      ensures old(Remembered(file.contents)).Torn? ==>
                !ok && submitted == None && file.contents == old(file.contents) && jobID == ""
      ensures old(Remembered(file.contents)).Missing? ==>
                && (submitted.Some? <==> submission.Accepted?)
                && (submitted.Some? ==> jobID == submitted.value == submission.id && (stdoutPath, stderrPath) == paths)
                && (submitted.Some? ==> file.contents == match write
                                                         case NotWritten => old(file.contents)
                                                         case HalfWritten => NotJson
                                                         case Written => Json(Snapshot()))
                && (submitted.None? ==> jobID == "" && file.contents == old(file.contents))
                && (ok <==> submission.Accepted? && write.Written?)
      ensures ok ==> file.contents == Json(Snapshot()) && Remembered(file.contents) == Remembers(jobID)
    {
      ok, submitted := false, None;
      var recovered := RecoverState();
      if !recovered {
        return;
      }
      if jobID != "" {
        ok := true;
        return;
      }
      if !submission.Accepted? {
        return;
      }
      jobID := submission.id;
      submitted := Some(jobID);
      stdoutPath, stderrPath := paths.0, paths.1;
      ok := SaveState(write);
    }

    /** The file goes first, so that a session started later submits afresh; then the job. */
    method Stop(deleted: bool, cancelled: bool) returns (ok: bool, cancel: Option<JobId>)
      modifies file
      ensures jobID == "" ==> ok && cancel == None && file.contents == old(file.contents)
      ensures jobID != "" ==>
                && (ok <==> cancelled)
                && cancel == (if cancelled then Some(jobID) else None)
                && file.contents == (if deleted then NoFile else old(file.contents))
    {
      ok, cancel := true, None;
      if jobID == "" {
        return;
      }
      if deleted {
        file.contents := NoFile;
      }
      ok := cancelled;
      if cancelled {
        cancel := Some(jobID);
      }
    }
  }

  /** What `FetchLogStream` does to a stream is a step of the tailing model. */
  lemma FetchIsATailStep(s: LogTail.Tail, content: seq<byte>)
    requires LogTail.BufferOk(s)
    requires |content| <= LogTail.FETCH_SIZE && s.offset + |s.buf| + |content| <= |s.file|
    requires content == s.file[s.offset + |s.buf|..s.offset + |s.buf| + |content|]
    ensures var data := s.buf + content;
            var e := LogTail.Fetch(|content|, CompleteLines(data), Remainder(data));
            && LogTail.Allowed(s, e)
            && LogTail.Step(s, e).buf == Remainder(data)
            && LogTail.Step(s, e).offset + |Remainder(data)| == s.offset + |data|
            && LogTail.Step(s, e).printed == LogTail.Print(s.printed, s.offset, CompleteLines(data))
  {
    SplitKeepsText(s.buf + content);
  }

  /** A save followed by a restart brings back the job, the paths and both offsets, and submits
      nothing; only the unfinished lines are read again. */
  method SaveThenRestart(before: Controller, file: StateFile, submission: Submission, paths: (string, string), write: Write)
    returns (after: Controller)
    requires before.file == file && before.jobID != "" && (submission.Accepted? ==> submission.id != "")
    modifies file
    ensures fresh(after) && after.jobID == before.jobID
    ensures after.stdoutPath == before.stdoutPath && after.stderrPath == before.stderrPath
    ensures after.stdoutOffset == before.stdoutOffset && after.stderrOffset == before.stderrOffset
    ensures after.stdoutBuf == [] && after.stderrBuf == []
  {
    var saved := before.SaveState(Written);
    after := new Controller(file);
    var ok, submitted := after.Start(submission, paths, write);
    assert submitted == None;
  }

  // ---------------------------------------------------------------- starting and stopping, seen from outside

  /** These events lead from one state of `Jobs` to the other. */
  ghost predicate Leads(w: World, events: seq<Event>, w': World)
    decreases |events|
  {
    if events == [] then w' == w
    else Allowed(w, events[0]) && Leads(Step(w, events[0]), events[1..], w')
  }

  lemma LeadsOn(w: World, e: Event, events: seq<Event>, w': World)
    requires Allowed(w, e) && Leads(Step(w, e), events, w')
    ensures Leads(w, [e] + events, w')
  {
    assert ([e] + events)[1..] == events;
  }

  /** The job that the cluster runs after this submission. */
  function Runs(submission: Submission): set<JobId> {
    if submission.AnswerLost? || submission.Accepted? then {submission.id} else {}
  }

  /** A Start is a few steps of `Jobs`: what is on disk, which job the process holds and what has been
      submitted stay in agreement with it, however the Start ends. */
  method StartInWorld(c: Controller, submission: Submission, paths: (string, string), write: Write, ghost w: World)
    returns (ok: bool, ghost events: seq<Event>, ghost w': World)
    requires c.jobID == "" && w.process.Down? && w.disk == Remembered(c.file.contents)
    requires submission.Accepted? ==> submission.id != ""
    requires Runs(submission) !! w.submitted
    modifies c, c.file
    ensures Leads(w, events, w') && w'.disk == Remembered(c.file.contents)
    ensures if ok then w'.process == Up(c.jobID, true, Serving) else w'.process == Down
    ensures w'.submitted == w.submitted + (if w.disk.Missing? then Runs(submission) else {})
    ensures w'.unsavedStarts == w.unsavedStarts + if w'.submitted != w.submitted && !ok then 1 else 0
  {
    var submitted;
    ok, submitted := c.Start(submission, paths, write);
    var begun := Step(w, Begin);
    if !w.disk.Missing? {
      events, w' := [], begun;
    } else if submission.AnswerLost? {
      events, w' := [SubmitLost(submission.id)], Step(begun, SubmitLost(submission.id));
    } else if submitted.None? {
      events, w' := [Ends], Step(begun, Ends);
    } else {
      var up := Step(begun, Submit(submission.id));
      if ok {
        events, w' := [Save], Step(up, Save);
      } else if w.disk == Remembered(c.file.contents) {
        events, w' := [Ends], Step(up, Ends);
      } else {
        w' := Step(Step(up, SaveTorn), Ends);
        events := [SaveTorn] + [Ends];
        LeadsOn(up, SaveTorn, [Ends], w');
      }
      LeadsOn(begun, Submit(submission.id), events, w');
      events := [Submit(submission.id)] + events;
    }
    LeadsOn(w, Begin, events, w');
    events := [Begin] + events;
  }

  /** So is a Stop after a successful Start. */
  method StopInWorld(c: Controller, deleted: bool, cancelled: bool, ghost w: World)
    returns (ok: bool, ghost events: seq<Event>, ghost w': World)
    requires c.jobID != "" && w.process == Up(c.jobID, true, Serving) && w.disk == Remembered(c.file.contents)
    modifies c.file
    ensures Leads(w, events, w') && w'.disk == Remembered(c.file.contents)
    ensures w'.cancelled == w.cancelled + (if ok then {c.jobID} else {})
    ensures w'.failedStops == w.failedStops + if ok then 0 else 1
  {
    var cancel;
    ok, cancel := c.Stop(deleted, cancelled);
    var stopping := Step(w, StopBegins(deleted));
    w' := Step(stopping, Cancel(cancelled));
    LeadsOn(w, StopBegins(deleted), [Cancel(cancelled)], w');
    events := [StopBegins(deleted)] + [Cancel(cancelled)];
  }
}
