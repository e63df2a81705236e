/**
 One cron job: the loop that sleeps, enqueues and saves, the stored row that
 survives restarts, and the crashes between any two of its steps.
 */
module Cron {
  import opened Prelude

  datatype Job = Job(interval: nat, runOnStartup: bool)

  /** How long a starting process waits, from what it read; None asks for an anchor first. */
  function StartupDelay(job: Job, readOk: bool, row: Option<nat>, now: nat): Option<nat> {
    if !readOk then Some(job.interval)
    else if row.Some? then
      var nextRunAt := row.value + job.interval;
      if nextRunAt <= now then Some(0) else Some(nextRunAt - now)
    else if job.runOnStartup then Some(0)
    else None
  }

  /** The row of cron_job_state for this job, and the two operations that use it. */
  class CronJobState {
    const job: Job
    var lastRanAt: Option<nat>

    constructor (job: Job)
      ensures this.job == job && lastRanAt == None
    {
      this.job, lastRanAt := job, None;
    }

    method MarkCronJobRan(ranAt: nat, persists: bool) returns (ok: bool)
      modifies this
      ensures ok == persists
      ensures lastRanAt == if persists then Some(ranAt) else old(lastRanAt)
    {
      if persists {
        lastRanAt := Some(ranAt);
      }
      ok := persists;
    }

    /** A missing row is anchored at `anchorAt`, whether or not that can be saved. */
    method NextCronJobDelay(readOk: bool, now: nat, anchorAt: nat, anchorPersists: bool) returns (delay: nat)
      modifies this
      ensures var d := StartupDelay(job, readOk, old(lastRanAt), now);
        && delay == (if d.Some? then d.value else job.interval)
        && lastRanAt == (if d.None? && anchorPersists then Some(anchorAt) else old(lastRanAt))
    {
      if !readOk {
        return job.interval;
      }
      if lastRanAt.Some? {
        var nextRunAt := lastRanAt.value + job.interval;
        return if nextRunAt <= now then 0 else nextRunAt - now;
      }
      if job.runOnStartup {
        return 0;
      }
      var _ := MarkCronJobRan(anchorAt, anchorPersists);
      return job.interval;
    }

    /** Only a queued transaction is saved as a run. */
    method EnqueueCronJobTransaction(
      relayerFound: bool, transactionBuilt: bool, queueAccepts: bool, ranAt: nat, persists: bool)
      returns (queued: bool)
      modifies this
      ensures queued == (relayerFound && transactionBuilt && queueAccepts)
      ensures lastRanAt == if queued && persists then Some(ranAt) else old(lastRanAt)
    {
      if !relayerFound || !transactionBuilt || !queueAccepts {
        return false;
      }
      var _ := MarkCronJobRan(ranAt, persists);
      return true;
    }
  }

  // ---- The process and its crashes ------------------------------------------

  datatype Process =
    | Down
    | Anchoring
    | Delaying(delay: nat)
    | Sleeping(wakeAt: nat)
    | Enqueuing
    | Saving

  /** A queued run: when, whether its save succeeded, and whether the process has stopped since. */
  datatype JobRun = JobRun(at: nat, saved: bool, cut: bool)

  datatype State = State(row: Option<nat>, process: Process, now: nat, runs: seq<JobRun>)

  function Installed(now: nat): State {
    State(None, Down, now, [])
  }

  datatype Event =
    | Start(readOk: bool)
    | Anchor(persists: bool)
    | FallAsleep
    | Wake
    | EnqueueFails
    | Enqueue
    | Save(persists: bool)
    | Stop
    | Tick(time: nat)

  predicate Enabled(s: State, e: Event) {
    match e
    case Start(_) => s.process.Down?
    case Anchor(_) => s.process.Anchoring?
    case FallAsleep => s.process.Delaying?
    case Wake => s.process.Sleeping? && s.now >= s.process.wakeAt
    case EnqueueFails => s.process.Enqueuing?
    case Enqueue => s.process.Enqueuing?
    case Save(_) => s.process.Saving? && s.runs != []
    case Stop => !s.process.Down?
    case Tick(_) => true
  }

  function OnLast(runs: seq<JobRun>, saved: bool, cut: bool): seq<JobRun> {
    if runs == [] then runs
    else
      var last := runs[|runs| - 1];
      runs[|runs| - 1 := last.(saved := last.saved || saved, cut := last.cut || cut)]
  }

  function Next(job: Job, s: State, e: Event): State
    requires Enabled(s, e)
  {
    match e
    case Start(readOk) =>
      var delay := StartupDelay(job, readOk, s.row, s.now);
      s.(process := if delay.Some? then Delaying(delay.value) else Anchoring)
    case Anchor(persists) =>
      s.(row := if persists then Some(s.now) else s.row, process := Delaying(job.interval))
    case FallAsleep => s.(process := Sleeping(s.now + s.process.delay))
    case Wake => s.(process := Enqueuing)
    case EnqueueFails => s.(process := Delaying(job.interval))
    case Enqueue => s.(runs := s.runs + [JobRun(s.now, false, false)], process := Saving)
    case Save(persists) =>
      s.(row := if persists then Some(s.now) else s.row,
         runs := OnLast(s.runs, persists, false), process := Delaying(job.interval))
    case Stop => s.(process := Down, runs := OnLast(s.runs, false, true))
    case Tick(time) => s.(now := s.now + time)
  }

  predicate Legal(job: Job, s: State, events: seq<Event>)
    decreases |events|
  {
    events == [] || (Enabled(s, events[0]) && Legal(job, Next(job, s, events[0]), events[1..]))
  }

  function Run(job: Job, s: State, events: seq<Event>): State
    requires Legal(job, s, events)
    decreases |events|
  {
    if events == [] then s else Run(job, Next(job, s, events[0]), events[1..])
  }

  // ---- Spacing --------------------------------------------------------------

  /** A queued run keeps its time for ever, and its marks once it has them. */
  lemma {:induction false} MarksAreKept(job: Job, s: State, later: seq<Event>, i: nat)
    requires Legal(job, s, later) && i < |s.runs|
    ensures var runs := Run(job, s, later).runs;
      && i < |runs| && runs[i].at == s.runs[i].at
      && (s.runs[i].saved ==> runs[i].saved) && (s.runs[i].cut ==> runs[i].cut)
    decreases |later|
  {
    if later != [] {
      MarksAreKept(job, Next(job, s, later[0]), later[1..], i);
    }
  }

  /** The next run is not before one interval after this one. */
  predicate Binding(run: JobRun) {
    run.saved || !run.cut
  }

  /** Nothing can be queued before `time`, as the process stands. */
  predicate NotBefore(s: State, time: nat) {
    match s.process
    case Delaying(delay) => s.now + delay >= time
    case Sleeping(wakeAt) => wakeAt >= time
    case Enqueuing => s.now >= time
    case _ => true
  }

  ghost predicate Inv(job: Job, s: State) {
    && (s.row.Some? ==> s.row.value <= s.now && NotBefore(s, s.row.value + job.interval))
    && (s.process.Anchoring? ==> s.row.None?)
    && (s.process.Saving? ==> s.runs != [] && !s.runs[|s.runs| - 1].cut && !s.runs[|s.runs| - 1].saved)
    && (s.runs != [] ==>
          var last := s.runs[|s.runs| - 1];
          && last.at <= s.now
          && (last.saved ==> s.row.Some? && s.row.value >= last.at)
          && (s.process.Down? || s.process.Anchoring? ==> last.cut)
          && (Binding(last) ==> NotBefore(s, last.at + job.interval)))
    && (forall i :: 0 <= i < |s.runs| - 1 ==>
          s.runs[i].at <= s.runs[i + 1].at
          && (Binding(s.runs[i]) ==> s.runs[i].at + job.interval <= s.runs[i + 1].at))
  }

  lemma EnqueueKeepsInv(job: Job, s: State)
    requires Inv(job, s) && Enabled(s, Enqueue)
    ensures Inv(job, Next(job, s, Enqueue))
  {
    var s' := Next(job, s, Enqueue);
    assert forall i :: 0 <= i < |s.runs| ==> s'.runs[i] == s.runs[i];
  }

  lemma SaveKeepsInv(job: Job, s: State, persists: bool)
    requires Inv(job, s) && Enabled(s, Save(persists))
    ensures Inv(job, Next(job, s, Save(persists)))
  {
    var s' := Next(job, s, Save(persists));
    assert forall i :: 0 <= i < |s.runs| - 1 ==> s'.runs[i] == s.runs[i];
    assert s'.runs[|s.runs| - 1].at == s.runs[|s.runs| - 1].at;
  }

  lemma StopKeepsInv(job: Job, s: State)
    requires Inv(job, s) && Enabled(s, Stop)
    ensures Inv(job, Next(job, s, Stop))
  {
    var s' := Next(job, s, Stop);
    if s.runs != [] {
      assert forall i :: 0 <= i < |s.runs| - 1 ==> s'.runs[i] == s.runs[i];
      assert s'.runs[|s.runs| - 1].at == s.runs[|s.runs| - 1].at;
    }
  }

  lemma StepKeepsInv(job: Job, s: State, e: Event)
    requires Inv(job, s) && Enabled(s, e)
    ensures Inv(job, Next(job, s, e))
  {
    match e
    case Enqueue => EnqueueKeepsInv(job, s);
    case Save(persists) => SaveKeepsInv(job, s, persists);
    case Stop => StopKeepsInv(job, s);
    case _ =>
  }

  lemma {:induction false} RunKeepsInv(job: Job, s: State, events: seq<Event>)
    requires Inv(job, s) && Legal(job, s, events)
    ensures Inv(job, Run(job, s, events))
    decreases |events|
  {
    if events != [] {
      StepKeepsInv(job, s, events[0]);
      RunKeepsInv(job, Next(job, s, events[0]), events[1..]);
    }
  }

  /**
   Across any restarts, failed saves, failed reads and failed attempts: two
   successive runs are at least one interval apart, unless the save of the
   first was lost and the process stopped in between.
   */
  lemma RunsAreSpaced(job: Job, start: nat, events: seq<Event>, i: nat)
    requires Legal(job, Installed(start), events)
    requires i + 1 < |Run(job, Installed(start), events).runs|
    ensures var runs := Run(job, Installed(start), events).runs;
      runs[i].saved || !runs[i].cut ==> runs[i + 1].at >= runs[i].at + job.interval
  {
    RunKeepsInv(job, Installed(start), events);
  }

  lemma {:induction false} TraceIsRun(job: Job, states: seq<State>, events: seq<Event>)
    requires |states| == |events| + 1
    requires forall i :: 0 <= i < |events| ==>
               Enabled(states[i], events[i]) && Next(job, states[i], events[i]) == states[i + 1]
    ensures Legal(job, states[0], events) && Run(job, states[0], events) == states[|events|]
    decreases |events|
  {
    if events != [] {
      assert Next(job, states[0], events[0]) == states[1..][0];
      TraceIsRun(job, states[1..], events[1..]);
    }
  }

  /** That exception is real: with a lost save and a restart the job runs twice at the same moment. */
  lemma LostSaveRunsTwice(interval: nat, t: nat)
    ensures var job := Job(interval, true);
      var once := [Start(true), FallAsleep, Wake, Enqueue];
      var events := once + ([Stop] + once);
      && Legal(job, Installed(t), events)
      && Run(job, Installed(t), events).runs == [JobRun(t, false, true), JobRun(t, false, false)]
  {
    var job := Job(interval, true);
    var once := [Start(true), FallAsleep, Wake, Enqueue];
    var s1 := Run(job, Installed(t), once);
    var s2 := Next(job, s1, Stop);
    assert s2.runs == [JobRun(t, false, true)];
    TraceIsRun(job, [s1, s2], [Stop]);
    RunConcat(job, s1, [Stop], once);
    RunConcat(job, Installed(t), once, [Stop] + once);
  }

  // ---- When the next run is spaced ------------------------------------------

  /** A stopped job whose next start cannot queue a run before `last` plus one interval. */
  predicate StartIsSpaced(job: Job, s: State, last: nat) {
    || s.now >= last + job.interval
    || (s.row.Some? && s.row.value >= last)
    || (s.row.None? && !job.runOnStartup)
  }

  /** Whatever happens later, the next run is at least one interval after `last`. */
  ghost predicate NextRunSpaced(job: Job, s: State, last: nat) {
    forall later: seq<Event> :: Legal(job, s, later) ==>
      (|Run(job, s, later).runs| > |s.runs| ==> Run(job, s, later).runs[|s.runs|].at >= last + job.interval)
  }

  /** No run after the first n yet and none possible too early; or the next one was late enough. */
  ghost predicate Spacing(job: Job, s: State, n: nat, last: nat) {
    && last <= s.now && |s.runs| >= n
    && if |s.runs| == n
       then
         && StartIsSpaced(job, s, last) && NotBefore(s, last + job.interval)
         && !s.process.Saving? && (s.process.Anchoring? ==> s.row.None?)
       else s.runs[n].at >= last + job.interval
  }

  lemma {:induction false} NextRunIsLateEnough(job: Job, s: State, later: seq<Event>, n: nat, last: nat)
    requires Spacing(job, s, n, last) && Legal(job, s, later)
    ensures |Run(job, s, later).runs| > n ==> Run(job, s, later).runs[n].at >= last + job.interval
    decreases |later|
  {
    if later != [] {
      NextRunIsLateEnough(job, Next(job, s, later[0]), later[1..], n, last);
    }
  }

  /** A start with a row queues a run as soon as the row is one interval old. */
  lemma StartRunsWhenDue(job: Job, s: State)
    requires s.process.Down? && s.row.Some?
    ensures var due := Max(s.now, s.row.value + job.interval);
      var later := [Start(true), FallAsleep, Tick(due - s.now), Wake, Enqueue];
      && Legal(job, s, later)
      && Run(job, s, later).runs == s.runs + [JobRun(due, false, false)]
  {
    var due := Max(s.now, s.row.value + job.interval);
    var later := [Start(true), FallAsleep, Tick(due - s.now), Wake, Enqueue];
    var s1 := Next(job, s, Start(true));
    var s2 := Next(job, s1, FallAsleep);
    var s3 := Next(job, s2, Tick(due - s.now));
    var s4 := Next(job, s3, Wake);
    TraceIsRun(job, [s, s1, s2, s3, s4, Next(job, s4, Enqueue)], later);
  }

  /**
   In every reachable stopped state: the next run is at least one interval after
   the last, whatever happens, if and only if the interval is already over, or
   the row is at least as late as that run, or there is no row and the job does
   not run on startup. A lost save is harmless in the last case and after time.
   */
  lemma NextRunIsSpacedIff(job: Job, start: nat, events: seq<Event>)
    requires Legal(job, Installed(start), events)
    requires Run(job, Installed(start), events).process.Down? && Run(job, Installed(start), events).runs != []
    ensures var s := Run(job, Installed(start), events);
      var last := s.runs[|s.runs| - 1].at;
      NextRunSpaced(job, s, last) <==> StartIsSpaced(job, s, last)
  {
    var s := Run(job, Installed(start), events);
    var n, last := |s.runs|, s.runs[|s.runs| - 1].at;
    RunKeepsInv(job, Installed(start), events);
    if StartIsSpaced(job, s, last) {
      forall later: seq<Event> | Legal(job, s, later)
        ensures |Run(job, s, later).runs| > n ==> Run(job, s, later).runs[n].at >= last + job.interval
      {
        NextRunIsLateEnough(job, s, later, n, last);
      }
    } else if s.row.Some? {
      StartRunsWhenDue(job, s);
    } else {
      var later := [Start(true), FallAsleep, Wake, Enqueue];
      assert job == Job(job.interval, true) && Legal(job, s, later) && Run(job, s, later).runs[n].at == s.now;
    }
  }

  // ---- A job that stays up --------------------------------------------------

  /**
   What a starting process sleeps until, by what it reads: a whole interval when the
   read fails; the row's age counted off when there is a row; nothing for a job that
   runs on startup; and a whole interval from the anchor otherwise.
   */
  lemma StartSleepsUntil(job: Job, s: State, persists: bool)
    requires s.process.Down?
    ensures var blind := Next(job, s, Start(false));
      blind.process.Delaying? && Next(job, blind, FallAsleep).process == Sleeping(s.now + job.interval)
    ensures var started := Next(job, s, Start(true));
      match s.row
      case Some(ranAt) =>
        && started.process.Delaying?
        && Next(job, started, FallAsleep).process ==
           Sleeping(if ranAt + job.interval > s.now then ranAt + job.interval else s.now)
      case None =>
        if job.runOnStartup
        then started.process.Delaying? && Next(job, started, FallAsleep).process == Sleeping(s.now)
        else
          && started.process.Anchoring?
          && var anchored := Next(job, started, Anchor(persists));
          && anchored.row == (if persists then Some(s.now) else None)
          && anchored.process.Delaying?
          && Next(job, anchored, FallAsleep).process == Sleeping(s.now + job.interval)
  {
  }

  /** After an attempt, saved or not, queued or not, the job wakes exactly one interval later. */
  lemma WakesOneIntervalLater(job: Job, s: State, attempt: Event, waited: nat)
    requires Enabled(s, attempt) && (attempt.Save? || attempt.EnqueueFails?)
    ensures var s1 := Next(job, s, attempt);
      && s1.process.Delaying?
      && var s2 := Next(job, s1, FallAsleep);
      && s2.process == Sleeping(s.now + job.interval)
      && (Enabled(Next(job, s2, Tick(waited)), Wake) <==> waited >= job.interval)
  {
  }

  /**
   One turn of the loop of a job that is not stopped: it wakes `late` seconds after it
   could, the transaction is queued or not, and `busy` seconds pass until the save.
   */
  datatype Turn = Turn(late: nat, queued: bool, busy: nat, saved: bool)

  function EventsOf(job: Job, turn: Turn): seq<Event> {
    [FallAsleep, Tick(job.interval + turn.late), Wake]
    + if turn.queued then [Enqueue, Tick(turn.busy), Save(turn.saved)] else [Tick(turn.busy), EnqueueFails]
  }

  function EventsOfAll(job: Job, turns: seq<Turn>): seq<Event> {
    if turns == [] then [] else EventsOf(job, turns[0]) + EventsOfAll(job, turns[1..])
  }

  /** When a turn that starts at `now` is over. */
  function EndOf(job: Job, now: nat, turn: Turn): nat {
    now + job.interval + turn.late + turn.busy
  }

  /** The run a turn that starts at `now` queues: one interval and its lateness into the turn. */
  function RunOf(job: Job, now: nat, turn: Turn): seq<JobRun> {
    if turn.queued then [JobRun(now + job.interval + turn.late, turn.saved, false)] else []
  }

  function RunsOf(job: Job, now: nat, turns: seq<Turn>): seq<JobRun>
    decreases |turns|
  {
    if turns == [] then []
    else RunOf(job, now, turns[0]) + RunsOf(job, EndOf(job, now, turns[0]), turns[1..])
  }

  lemma WakesUp(job: Job, s: State, late: nat)
    requires s.process == Delaying(job.interval)
    ensures var events := [FallAsleep, Tick(job.interval + late), Wake];
      && Legal(job, s, events)
      && Run(job, s, events) == s.(process := Enqueuing, now := s.now + job.interval + late)
  {
    var events := [FallAsleep, Tick(job.interval + late), Wake];
    var s1 := Next(job, s, FallAsleep);
    var s2 := Next(job, s1, Tick(job.interval + late));
    TraceIsRun(job, [s, s1, s2, Next(job, s2, Wake)], events);
  }

  lemma Attempts(job: Job, s: State, turn: Turn)
    requires s.process == Enqueuing
    ensures var events := if turn.queued then [Enqueue, Tick(turn.busy), Save(turn.saved)]
                          else [Tick(turn.busy), EnqueueFails];
      && Legal(job, s, events)
      && Run(job, s, events) ==
         State(if turn.queued && turn.saved then Some(s.now + turn.busy) else s.row, Delaying(job.interval),
               s.now + turn.busy, s.runs + if turn.queued then [JobRun(s.now, turn.saved, false)] else [])
  {
    if turn.queued {
      var s1 := Next(job, s, Enqueue);
      var s2 := Next(job, s1, Tick(turn.busy));
      var s3 := Next(job, s2, Save(turn.saved));
      TraceIsRun(job, [s, s1, s2, s3], [Enqueue, Tick(turn.busy), Save(turn.saved)]);
      assert s3.runs == s.runs + [JobRun(s.now, turn.saved, false)];
    } else {
      var s1 := Next(job, s, Tick(turn.busy));
      TraceIsRun(job, [s, s1, Next(job, s1, EnqueueFails)], [Tick(turn.busy), EnqueueFails]);
    }
  }

  lemma OneTurn(job: Job, s: State, turn: Turn)
    requires s.process == Delaying(job.interval)
    ensures Legal(job, s, EventsOf(job, turn))
    ensures var s' := Run(job, s, EventsOf(job, turn));
      && s'.process == Delaying(job.interval) && s'.now == EndOf(job, s.now, turn)
      && s'.runs == s.runs + RunOf(job, s.now, turn)
      && s'.row == if turn.queued && turn.saved then Some(s'.now) else s.row
  {
    var first := [FallAsleep, Tick(job.interval + turn.late), Wake];
    var rest := if turn.queued then [Enqueue, Tick(turn.busy), Save(turn.saved)] else [Tick(turn.busy), EnqueueFails];
    WakesUp(job, s, turn.late);
    Attempts(job, Run(job, s, first), turn);
    RunConcat(job, s, first, rest);
  }

  /** A job that is not stopped queues exactly the runs its turns say, at exactly those times. */
  lemma {:induction false} TurnsQueueTheirRuns(job: Job, s: State, turns: seq<Turn>)
    requires s.process == Delaying(job.interval)
    ensures Legal(job, s, EventsOfAll(job, turns))
    ensures var s' := Run(job, s, EventsOfAll(job, turns));
      s'.process == Delaying(job.interval) && s'.runs == s.runs + RunsOf(job, s.now, turns)
    decreases |turns|
  {
    if turns != [] {
      OneTurn(job, s, turns[0]);
      var first := EventsOf(job, turns[0]);
      var s1 := Run(job, s, first);
      TurnsQueueTheirRuns(job, s1, turns[1..]);
      RunConcat(job, s, first, EventsOfAll(job, turns[1..]));
      assert (s.runs + RunOf(job, s.now, turns[0])) + RunsOf(job, s1.now, turns[1..])
          == s.runs + RunsOf(job, s.now, turns);
    }
  }

  lemma {:induction false} PromptRuns(job: Job, now: nat, turns: seq<Turn>)
    requires forall i :: 0 <= i < |turns| ==> turns[i].queued && turns[i].late == 0 && turns[i].busy == 0
    ensures var runs := RunsOf(job, now, turns);
      && |runs| == |turns|
      && (runs != [] ==> runs[0].at == now + job.interval)
      && (forall i :: 0 <= i < |runs| - 1 ==> runs[i + 1].at == runs[i].at + job.interval)
    decreases |turns|
  {
    if turns != [] {
      var rest := turns[1..];
      assert forall i :: 0 <= i < |rest| ==> rest[i] == turns[i + 1];
      PromptRuns(job, now + job.interval, rest);
      var runs, later := RunsOf(job, now, turns), RunsOf(job, now + job.interval, rest);
      assert runs == [runs[0]] + later;
      forall i | 0 <= i < |runs| - 1 ensures runs[i + 1].at == runs[i].at + job.interval {
        if i > 0 {
          assert runs[i] == later[i - 1];
        }
      }
    }
  }

  /**
   A job that is not stopped, wakes and enqueues as soon as it can and loses no time
   saving queues one run per turn, the first one interval from now and then exactly
   one interval apart, whether or not the saves succeed.
   */
  lemma SteadyRunsAreOneIntervalApart(job: Job, s: State, turns: seq<Turn>)
    requires s.process == Delaying(job.interval) && turns != []
    requires forall i :: 0 <= i < |turns| ==> turns[i].queued && turns[i].late == 0 && turns[i].busy == 0
    ensures Legal(job, s, EventsOfAll(job, turns))
    ensures var n, runs := |s.runs|, Run(job, s, EventsOfAll(job, turns)).runs;
      && |runs| == n + |turns| && runs[n].at == s.now + job.interval
      && (forall i :: n <= i < |runs| - 1 ==> runs[i + 1].at == runs[i].at + job.interval)
  {
    TurnsQueueTheirRuns(job, s, turns);
    PromptRuns(job, s.now, turns);
  }

  // ---- Restarts -------------------------------------------------------------

  /** Stopped and started again at once; the time it then sleeps until. */
  function DueAfterRestart(job: Job, s: State, readOk: bool): nat
    requires s.process.Sleeping?
  {
    var delay := StartupDelay(job, readOk, s.row, s.now);
    s.now + if delay.Some? then delay.value else job.interval
  }

  lemma DueAfterRestartIsTheMachines(job: Job, s: State, readOk: bool, anchorPersists: bool)
    requires s.process.Sleeping?
    ensures var s1 := Next(job, Next(job, s, Stop), Start(readOk));
      var s2 := if s1.process.Anchoring? then Next(job, s1, Anchor(anchorPersists)) else s1;
      s2.process.Delaying? && Next(job, s2, FallAsleep).process == Sleeping(DueAfterRestart(job, s, readOk))
  {
  }

  /**
   In every reachable state of a sleeping job, a restart at once does not make
   it due later (or, if it was overdue, later than now) exactly when the row
   can be read and is there or need not be, or a whole interval fits anyway.
   */
  lemma RestartDelaysNothingIff(job: Job, start: nat, events: seq<Event>, readOk: bool)
    requires job.interval > 0 && Legal(job, Installed(start), events)
    requires Run(job, Installed(start), events).process.Sleeping?
    ensures var s := Run(job, Installed(start), events);
      DueAfterRestart(job, s, readOk) <= Max(s.process.wakeAt, s.now)
      <==> (readOk && (s.row.Some? || job.runOnStartup)) || s.now + job.interval <= s.process.wakeAt
  {
    RunKeepsInv(job, Installed(start), events);
  }

  /** Restarts at the given times, each reading the row and going to sleep. */
  function Restarts(times: seq<nat>): seq<Event> {
    if times == [] then []
    else Restarts(times[..|times| - 1]) + [Tick(times[|times| - 1]), Stop, Start(true), FallAsleep]
  }

  function Elapsed(times: seq<nat>): nat {
    if times == [] then 0 else Elapsed(times[..|times| - 1]) + times[|times| - 1]
  }

  lemma {:induction false} RunConcat(job: Job, s: State, a: seq<Event>, b: seq<Event>)
    requires Legal(job, s, a) && Legal(job, Run(job, s, a), b)
    ensures Legal(job, s, a + b) && Run(job, s, a + b) == Run(job, Run(job, s, a), b)
    decreases |a|
  {
    if a == [] {
      assert a + b == b;
    } else {
      assert (a + b)[1..] == a[1..] + b;
      RunConcat(job, Next(job, s, a[0]), a[1..], b);
    }
  }

  lemma OneRestart(job: Job, s: State, time: nat)
    requires s.process.Sleeping? && s.row.Some?
    ensures var events := [Tick(time), Stop, Start(true), FallAsleep];
      && Legal(job, s, events)
      && Run(job, s, events)
         == s.(now := s.now + time, runs := OnLast(s.runs, false, true),
               process := Sleeping(Max(s.now + time, s.row.value + job.interval)))
  {
    var events := [Tick(time), Stop, Start(true), FallAsleep];
    var s1 := Next(job, s, Tick(time));
    var s2 := Next(job, s1, Stop);
    var s3 := Next(job, s2, Start(true));
    var s4 := Next(job, s3, FallAsleep);
    TraceIsRun(job, [s, s1, s2, s3, s4], events);
  }

  /**
   With a stored row, however often and whenever the process is restarted, the
   job stays due one interval after the row: restarts cannot starve it.
   */
  lemma {:induction false} RestartsCannotStarve(job: Job, s: State, times: seq<nat>)
    requires s.process.Sleeping? && s.row.Some? && times != []
    ensures Legal(job, s, Restarts(times))
    ensures var s' := Run(job, s, Restarts(times));
      && s'.row == s.row && s'.now == s.now + Elapsed(times)
      && s'.process == Sleeping(Max(s'.now, s.row.value + job.interval))
    decreases |times|
  {
    var n := |times| - 1;
    var before := times[..n];
    if before == [] {
      OneRestart(job, s, times[n]);
      assert Restarts(times) == [Tick(times[n]), Stop, Start(true), FallAsleep];
    } else {
      RestartsCannotStarve(job, s, before);
      OneRestart(job, Run(job, s, Restarts(before)), times[n]);
      RunConcat(job, s, Restarts(before), [Tick(times[n]), Stop, Start(true), FallAsleep]);
    }
  }

  /**
   Without an anchor they do: a restart that finds no row and cannot save one
   is due a whole interval later each time.
   */
  lemma UnsavedAnchorStarves(job: Job, s: State, time: nat)
    requires s.process.Sleeping? && s.row.None? && !job.runOnStartup
    ensures var events := [Tick(time), Stop, Start(true), Anchor(false), FallAsleep];
      && Legal(job, s, events)
      && Run(job, s, events).row.None?
      && Run(job, s, events).process == Sleeping(s.now + time + job.interval)
  {
    var events := [Tick(time), Stop, Start(true), Anchor(false), FallAsleep];
    var s1 := Next(job, s, Tick(time));
    var s2 := Next(job, s1, Stop);
    var s3 := Next(job, s2, Start(true));
    var s4 := Next(job, s3, Anchor(false));
    var s5 := Next(job, s4, FallAsleep);
    TraceIsRun(job, [s, s1, s2, s3, s4, s5], events);
  }
}
