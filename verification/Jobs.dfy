/** Submitting and cancelling the remote job across restarts: a saved file keeps a restarted
    controller from submitting the job again. */
module Jobs {

  type JobId = string

  /** The saved file: absent, torn by an unfinished write, or naming a job. */
  datatype Disk = Missing | Torn | Remembers(id: JobId)

  datatype Phase = Serving | Stopping | Stopped

  /** The controller process.  `saved`: its job has been on disk at some point since this process
      submitted or recovered it. */
  datatype Process =
    | Down
    | Starting                                      // nothing recovered, about to submit
    | Up(job: JobId, saved: bool, phase: Phase)

  /** The last two fields count the Starts that ended after submission but before any successful
      save, and the Stops whose cancel did not complete. */
  datatype World = World(
    disk: Disk,
    process: Process,
    submitted: set<JobId>,
    cancelled: set<JobId>,
    unsavedStarts: nat,
    failedStops: nat)

  datatype Event =
    | Begin                        // a new process reads the file
    | Submit(id: JobId)
    | SubmitLost(id: JobId)        // the cluster accepts the job, the answer is lost, Start fails
    | Save                         // by Start, or by the status loop at any time
    | SaveTorn
    | StopBegins(deleted: bool)    // the saved file is removed, or that fails
    | Cancel(done: bool)
    | Ends                         // crash, exit, or Start returning an error

  predicate Allowed(w: World, e: Event) {
    match e
    case Begin => w.process.Down?
    case Submit(id) => w.process.Starting? && id !in w.submitted
    case SubmitLost(id) => w.process.Starting? && id !in w.submitted
    case Save => w.process.Up?
    case SaveTorn => w.process.Up?
    case StopBegins(_) => w.process.Up? && w.process.saved && !w.process.phase.Stopping?   // Stop can be repeated
    case Cancel(_) => w.process.Up? && w.process.phase.Stopping?
    case Ends => !w.process.Down?
  }

  function Step(w: World, e: Event): World
    requires Allowed(w, e)
  {
    match e
    case Begin =>
      (match w.disk
       case Missing => w.(process := Starting)
       case Torn => w                                // Start fails at once
       case Remembers(id) => w.(process := Up(id, true, Serving)))
    case Submit(id) => w.(process := Up(id, false, Serving), submitted := w.submitted + {id})
    case SubmitLost(id) =>
      w.(process := Down, submitted := w.submitted + {id}, unsavedStarts := w.unsavedStarts + 1)
    case Save => w.(disk := Remembers(w.process.job), process := w.process.(saved := true))
    case SaveTorn => w.(disk := Torn)
    case StopBegins(deleted) =>
      w.(disk := if deleted then Missing else w.disk, process := w.process.(phase := Stopping))
    case Cancel(done) =>
      if done then w.(process := w.process.(phase := Stopped), cancelled := w.cancelled + {w.process.job})
      else w.(process := w.process.(phase := Stopped), failedStops := w.failedStops + 1)
    case Ends =>
      if w.process.Up? && !w.process.saved then w.(process := Down, unsavedStarts := w.unsavedStarts + 1)
      else if w.process.Up? && w.process.phase.Stopping? then w.(process := Down, failedStops := w.failedStops + 1)
      else w.(process := Down)
  }

  ghost predicate Run(run: seq<World>, events: seq<Event>) {
    && |run| == |events| + 1
    && run[0] == World(Missing, Down, {}, {}, 0, 0)
    && forall k {:trigger events[k]} :: 0 <= k < |events| ==>
         Allowed(run[k], events[k]) && run[k + 1] == Step(run[k], events[k])
  }

  // ---------------------------------------------------------------- what every step keeps

  /** A job that someone can still cancel, or a file that keeps every later Start from submitting. */
  predicate Accounted(w: World) {
    || (w.disk.Torn? && !(w.process.Up? && w.process.job in w.cancelled))
    || (w.disk.Remembers? && w.disk.id !in w.cancelled)
    || (w.process.Up? && w.process.job !in w.cancelled && !w.process.phase.Stopped?)
  }

  predicate Inv(w: World) {
    && w.cancelled <= w.submitted
    && (w.process.Starting? ==> w.disk.Missing?)
    && (w.disk.Remembers? ==> w.disk.id in w.submitted)
    && (w.process.Up? ==> w.process.job in w.submitted)
    && (w.process.Up? && w.disk.Remembers? ==> w.process.job == w.disk.id)
    && (w.process.Up? && !w.process.saved ==> w.process.phase.Serving?)
    && (w.process.Up? && w.process.saved && w.process.phase.Serving? ==> !w.disk.Missing?)
    && |w.submitted| - |w.cancelled| <= w.unsavedStarts + w.failedStops + (if Accounted(w) then 1 else 0)
  }

  lemma StepKeepsInv(w: World, e: Event)
    requires Inv(w) && Allowed(w, e)
    ensures Inv(Step(w, e))
  {
    match e
    case Submit(id) => assert |w.submitted + {id}| == |w.submitted| + 1;
    case SubmitLost(id) => assert |w.submitted + {id}| == |w.submitted| + 1;
    case Cancel(true) =>
      var id := w.process.job;
      assert if id in w.cancelled then w.cancelled + {id} == w.cancelled
             else |w.cancelled + {id}| == |w.cancelled| + 1;
    case _ =>
  }

  lemma {:induction false} RunKeepsInv(run: seq<World>, events: seq<Event>, k: nat)
    requires Run(run, events) && k < |run|
    ensures Inv(run[k])
  {
    if k > 0 {
      RunKeepsInv(run, events, k - 1);
      StepKeepsInv(run[k - 1], events[k - 1]);
      assert run[k - 1 + 1] == Step(run[k - 1], events[k - 1]);
    }
  }

  /** Jobs left running: at most the one at work, and one for each Start that ended unsaved and each
      Stop whose cancel did not complete. */
  lemma OrphansBounded(run: seq<World>, events: seq<Event>, k: nat)
    requires Run(run, events) && k < |run|
    ensures var w := run[k];
            && w.cancelled <= w.submitted
            && |w.submitted| - |w.cancelled| <= 1 + w.unsavedStarts + w.failedStops
  {
    RunKeepsInv(run, events, k);
  }

  /** Every torn save between rounds `i` and `j` has been followed by a whole one. */
  predicate Healed(events: seq<Event>, i: nat, j: nat)
    requires j <= |events|
  {
    forall t :: i <= t < j && events[t].SaveTorn? ==> exists u :: t < u < j && events[u].Save?
  }

  lemma HealedAfter(events: seq<Event>, i: nat, j: nat)
    requires i < j <= |events|
    ensures Healed(events, i, j) <==> events[j - 1].Save? || (Healed(events, i, j - 1) && !events[j - 1].SaveTorn?)
  {
    if Healed(events, i, j) && !events[j - 1].Save? {
      forall t | i <= t < j - 1 && events[t].SaveTorn?
        ensures exists u :: t < u < j - 1 && events[u].Save?
      {
        var u :| t < u < j && events[u].Save?;
        assert t < u < j - 1;
      }
    }
  }

  /** While no Stop begins, a file that was once written keeps every later process from submitting,
      torn or not. */
  lemma {:induction false} NoSecondSubmission(run: seq<World>, events: seq<Event>, i: nat, j: nat)
    requires Run(run, events) && i <= j < |run| && !run[i].disk.Missing?
    requires forall k {:trigger events[k]} :: i <= k < j ==> !events[k].StopBegins?
    ensures !run[j].disk.Missing? && !run[j].process.Starting? && run[j].submitted == run[i].submitted
  {
    RunKeepsInv(run, events, j);
    if i < j {
      NoSecondSubmission(run, events, i, j - 1);
      assert run[j - 1 + 1] == Step(run[j - 1], events[j - 1]);
    }
  }

  /** While no Stop begins, no process works on another job than the one on disk, and a new process
      takes that job up if and only if every torn save has been followed by a whole one. */
  lemma {:induction false} SavedJobIsKept(run: seq<World>, events: seq<Event>, i: nat, j: nat)
    requires Run(run, events) && i <= j < |run| && run[i].disk.Remembers?
    requires forall k {:trigger events[k]} :: i <= k < j ==> !events[k].StopBegins?
    ensures run[j].submitted == run[i].submitted
    ensures run[j].process.Up? ==> run[j].process.job == run[i].disk.id
    ensures run[j].disk == if Healed(events, i, j) then run[i].disk else Torn
    ensures j < |events| && events[j].Begin? ==>
              run[j + 1].process == if Healed(events, i, j) then Up(run[i].disk.id, true, Serving) else Down
  {
    NoSecondSubmission(run, events, i, j);
    RunKeepsInv(run, events, j);
    if i < j {
      SavedJobIsKept(run, events, i, j - 1);
      HealedAfter(events, i, j);
      assert run[j - 1 + 1] == Step(run[j - 1], events[j - 1]);
    }
  }

  /** A process that dies over a torn file leaves the job beyond reach: from then on every Start fails,
      and nothing changes any more. */
  lemma {:induction false} TornIsForEver(run: seq<World>, events: seq<Event>, i: nat, j: nat)
    requires Run(run, events) && i <= j < |run| && run[i].disk.Torn? && run[i].process.Down?
    ensures run[j] == run[i]
  {
    if i < j {
      TornIsForEver(run, events, i, j - 1);
      assert run[j - 1 + 1] == Step(run[j - 1], events[j - 1]);
    }
  }

  /** A run that ends there: a first save, and a crash in the middle of the second. */
  lemma JobOutOfReach(id: JobId) returns (run: seq<World>, events: seq<Event>)
    ensures Run(run, events) && |events| == 5
    ensures run[3].disk == Remembers(id)
    ensures run[5].disk == Torn && run[5].process == Down && run[5].submitted == {id} && run[5].cancelled == {}
  {
    events := [Begin, Submit(id), Save, SaveTorn, Ends];
    var w0 := World(Missing, Down, {}, {}, 0, 0);
    var w1 := Step(w0, Begin);
    var w2 := Step(w1, Submit(id));
    var w3 := Step(w2, Save);
    var w4 := Step(w3, SaveTorn);
    run := [w0, w1, w2, w3, w4, Step(w4, Ends)];
  }
}
