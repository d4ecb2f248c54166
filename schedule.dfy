/**
  The timer loop (main_loop, octoprint_printqueue/__init__.py:115-128): a report
  every POLL_INTERVAL seconds and a cleanup every CLEANUP_DIR_INTERVAL seconds,
  re-entered from scratch whenever an exception escapes it.
*/
module Schedule {
  import opened Trace
  import opened Paths
  import opened Reporting
  import opened Cleanup

  const POLL_INTERVAL := 30
  const CLEANUP_DIR_INTERVAL := 60 * 60

  /** The loop's two local variables. */
  datatype Timestamps = Timestamps(lastPoll: int, lastCleanupDir: int)

  /** Both timestamps are 0 on every entry into main_loop. */
  const ENTRY := Timestamps(0, 0)

  predicate PollDue(s: Timestamps, now: int) {
    s.lastPoll < now - POLL_INTERVAL
  }

  predicate CleanupDue(s: Timestamps, now: int) {
    s.lastCleanupDir < now - CLEANUP_DIR_INTERVAL
  }

  /**
    What the environment supplies to one pass of the loop: the clock as read at
    the report check and at the cleanup check, the settings as the report reads
    them, the printer's data, the network, and the queue folder's listing.
  */
  datatype Tick = Tick(pollNow: int, cleanupNow: int, settings: Settings, snapshot: Snapshot, net: Network,
                       listing: seq<DirEntry>)

  /** The effects of one pass and the timestamps it leaves. */
  datatype Pass = Pass(actions: seq<Action>, next: Timestamps)

  /** The timer report: `send_printer_status({"octoprint_data": octoprint_data()})`. */
  function Report(ctx: Context, tick: Tick): (t: seq<Action>)
    ensures |t| > 0 && RaisesLast(t)
    ensures t[0].Post? ==>
      && t[0].url == tick.settings.endpointPrefix + STATUS_RESOURCE
      && t[0].body == PollBody(StatusData(tick.snapshot, ctx.port, ctx.ip))
  {
    Send(tick.settings, ctx.folder, PollBody(StatusData(tick.snapshot, ctx.port, ctx.ip)), tick.net)
  }

  /**
    One pass of `while True`: the report check and its timestamp first, then the
    cleanup check and its timestamp. An exception from the report ends the pass
    before the cleanup check.
  */
  function Iteration(ctx: Context, s: Timestamps, tick: Tick): (pass: Pass)
    ensures pass.next.lastPoll in {s.lastPoll, tick.pollNow}
    ensures pass.next.lastCleanupDir in {s.lastCleanupDir, tick.cleanupNow}
    ensures RaisesLast(pass.actions)
  {
    var polled := PollDue(s, tick.pollNow);
    var afterPoll := if polled then s.(lastPoll := tick.pollNow) else s;
    var report := if polled then Report(ctx, tick) else [];
    if Aborted(report) then Pass(report, afterPoll)
    else if CleanupDue(afterPoll, tick.cleanupNow) then
      var removals := CleanupActions(ctx.folder, tick.listing, tick.cleanupNow);
      assert forall i | 0 <= i < |removals| :: removals[i] in removals;
      AppendRaisesLast(report, removals);
      Pass(report + removals, afterPoll.(lastCleanupDir := tick.cleanupNow))
    else Pass(report, afterPoll)
  }

  /**
    main_loop under its backoff decorator: an exception ends the current entry,
    and the decorator calls main_loop again, which starts from ENTRY.
  */
  function Run(ctx: Context, s: Timestamps, ticks: seq<Tick>): (t: seq<Action>)
    ensures ticks == [] ==> t == []
    ensures ticks != [] ==> Iteration(ctx, s, ticks[0]).actions <= t
    decreases |ticks|
  {
    if ticks == [] then []
    else
      var pass := Iteration(ctx, s, ticks[0]);
      pass.actions + Run(ctx, if Aborted(pass.actions) then ENTRY else pass.next, ticks[1..])
  }

  /** One more pass of a run that has carried out `done` so far, from timestamps `s`. */
  lemma RunStep(ctx: Context, s: Timestamps, ticks: seq<Tick>, i: nat, done: seq<Action>)
    requires i < |ticks|
    requires done + Run(ctx, s, ticks[i..]) == Run(ctx, ENTRY, ticks)
    ensures var pass := Iteration(ctx, s, ticks[i]);
      (done + pass.actions) + Run(ctx, if Aborted(pass.actions) then ENTRY else pass.next, ticks[i + 1..])
        == Run(ctx, ENTRY, ticks)
  {
    var pass := Iteration(ctx, s, ticks[i]);
    assert ticks[i..][0] == ticks[i] && ticks[i..][1..] == ticks[i + 1..];
    AppendRegroup(done, pass.actions, Run(ctx, if Aborted(pass.actions) then ENTRY else pass.next, ticks[i + 1..]));
  }

  /**
    A report is made exactly when the poll is due, and it comes first; the cleanup
    runs exactly when it is due and the report did not raise. Each check moves only
    its own timestamp, to the clock reading it compared.
  */
  lemma IterationSchedule(ctx: Context, s: Timestamps, tick: Tick)
    ensures var pass := Iteration(ctx, s, tick);
      var reported := PollDue(s, tick.pollNow);
      var cleaned := CleanupDue(s, tick.cleanupNow) && !(reported && Aborted(Report(ctx, tick)));
      && (reported <==> pass.actions != [] && !pass.actions[0].RemoveFile?)
      && pass.actions == (if reported then Report(ctx, tick) else [])
                       + (if cleaned then CleanupActions(ctx.folder, tick.listing, tick.cleanupNow) else [])
      && pass.next.lastPoll == (if reported then tick.pollNow else s.lastPoll)
      && pass.next.lastCleanupDir == (if cleaned then tick.cleanupNow else s.lastCleanupDir)
      && (Aborted(pass.actions) <==> reported && Aborted(Report(ctx, tick)))
  {
    var report := Report(ctx, tick);
    var removals := CleanupActions(ctx.folder, tick.listing, tick.cleanupNow);
    assert removals != [] ==> removals[|removals| - 1] in removals;
    if PollDue(s, tick.pollNow) {
      assert report[0] == (report + removals)[0];
      AppendAborted(report, removals);
    } else {
      assert forall a | a in removals :: a.RemoveFile?;
    }
  }

  /**
    Within one pass every request, download and printer action precedes every
    removal: once a RemoveFile appears, only RemoveFile follows.
  */
  lemma ReportPrecedesCleanup(ctx: Context, s: Timestamps, tick: Tick)
    ensures var t := Iteration(ctx, s, tick).actions;
      forall i, j | 0 <= i < j < |t| :: t[i].RemoveFile? ==> t[j].RemoveFile?
  {
    var report := if PollDue(s, tick.pollNow) then Report(ctx, tick) else [];
    var cleaned := CleanupDue(s, tick.cleanupNow) && !(PollDue(s, tick.pollNow) && Aborted(report));
    var removals := if cleaned then CleanupActions(ctx.folder, tick.listing, tick.cleanupNow) else [];
    IterationSchedule(ctx, s, tick);
    RemovalsTrail(report, removals);
  }

  /** Actions free of removals followed by removals only: no removal precedes a non-removal. */
  lemma RemovalsTrail(r: seq<Action>, m: seq<Action>)
    requires forall a | a in r :: !a.RemoveFile?
    requires forall a | a in m :: a.RemoveFile?
    ensures forall i, j | 0 <= i < j < |r + m| :: (r + m)[i].RemoveFile? ==> (r + m)[j].RemoveFile?
  {
    assert forall k | 0 <= k < |r| :: (r + m)[k] == r[k] && r[k] in r;
    assert forall k | |r| <= k < |r + m| :: (r + m)[k] == m[k - |r|] && m[k - |r|] in m;
  }

  /** After a restart, the first pass reports after 30 s of clock time and cleans after an hour. */
  lemma FirstPassAfterEntry(ctx: Context, tick: Tick)
    ensures var pass := Iteration(ctx, ENTRY, tick);
      && (tick.pollNow > POLL_INTERVAL ==> Report(ctx, tick) <= pass.actions)
      && (tick.pollNow > POLL_INTERVAL && tick.cleanupNow > CLEANUP_DIR_INTERVAL && !Aborted(Report(ctx, tick)) ==>
            pass.actions == Report(ctx, tick) + CleanupActions(ctx.folder, tick.listing, tick.cleanupNow))
  {
  }

  /** A report and the pass after it never both fall within one POLL_INTERVAL of clock time. */
  lemma PollsAreSpaced(ctx: Context, s: Timestamps, tick: Tick, later: Tick)
    requires PollDue(s, tick.pollNow) && later.pollNow <= tick.pollNow + POLL_INTERVAL
    ensures var pass := Iteration(ctx, s, tick);
      !Aborted(pass.actions) ==> !PollDue(pass.next, later.pollNow)
  {
  }

  /** An exception in a pass makes the next pass start from ENTRY. */
  lemma RestartAfterException(ctx: Context, s: Timestamps, ticks: seq<Tick>)
    requires ticks != [] && Aborted(Iteration(ctx, s, ticks[0]).actions)
    ensures Run(ctx, s, ticks) == Iteration(ctx, s, ticks[0]).actions + Run(ctx, ENTRY, ticks[1..])
  {
  }

  /**
    Over any run of the loop, a file is removed only if some pass listed it as a
    regular, non-.json file older than two weeks at that pass's clock reading.
  */
  lemma {:induction false} RunRemovesOnlyStale(ctx: Context, s: Timestamps, ticks: seq<Tick>, p: string)
    requires RemoveFile(p) in Run(ctx, s, ticks)
    ensures exists i, e | 0 <= i < |ticks| && e in ticks[i].listing ::
      Stale(e, ticks[i].cleanupNow) && p == Join(ctx.folder, e.name)
    decreases |ticks|
  {
    var pass := Iteration(ctx, s, ticks[0]);
    var rest := Run(ctx, if Aborted(pass.actions) then ENTRY else pass.next, ticks[1..]);
    assert Run(ctx, s, ticks) == pass.actions + rest;
    if RemoveFile(p) in pass.actions {
      IterationSchedule(ctx, s, ticks[0]);
      var report := if PollDue(s, ticks[0].pollNow) then Report(ctx, ticks[0]) else [];
      assert RemoveFile(p) !in report;
      RemovesExactlyStale(ctx.folder, ticks[0].listing, ticks[0].cleanupNow, p);
      var e :| e in ticks[0].listing && Stale(e, ticks[0].cleanupNow) && p == Join(ctx.folder, e.name);
      assert 0 < |ticks| && e in ticks[0].listing;
    } else {
      RunRemovesOnlyStale(ctx, if Aborted(pass.actions) then ENTRY else pass.next, ticks[1..], p);
      var i, e :| 0 <= i < |ticks[1..]| && e in ticks[1..][i].listing &&
                  Stale(e, ticks[1..][i].cleanupNow) && p == Join(ctx.folder, e.name);
      assert ticks[1..][i] == ticks[i + 1];
    }
  }
}
