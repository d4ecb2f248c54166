/**
  The plugin object (PrintQueuePlugin, octoprint_printqueue/__init__.py:29-183).
  Its fields hold what start-up stored; `trace` is the outside world, to which
  every method appends the effects it has, in order.
*/
module PrintQueue {
  import opened Wrappers
  import opened JsonData
  import opened Trace
  import opened Credentials
  import opened Paths
  import opened Commands
  import opened Reporting
  import opened Cleanup
  import opened Schedule

  class PrintQueuePlugin {
    var gCodeFolder: string
    var octoprintPort: int
    var octoprintIp: string
    var trace: seq<Action>

    function Ctx(): Context
      reads this`gCodeFolder, this`octoprintPort, this`octoprintIp
    {
      Context(gCodeFolder, octoprintPort, octoprintIp)
    }

    /** The plugin as on_startup and ensure_storage leave it, before it has done anything. */
    constructor (folder: string, port: int, ip: string)
      ensures Ctx() == Context(folder, port, ip) && trace == []
    {
      this.gCodeFolder := folder;
      this.octoprintPort := port;
      this.octoprintIp := ip;
      this.trace := [];
    }

    /** octoprint_data: the printer's dict, with three keys set in place. */
    method OctoprintData(snapshot: Snapshot) returns (data: map<string, Json>)
      ensures data == StatusData(snapshot, octoprintPort, octoprintIp)
    {
      data := snapshot.current;
      data := data["temperatures" := snapshot.temperatures];
      data := data["octoprint_port" := JNumber(octoprintPort)];
      data := data["octoprint_ip" := JString(octoprintIp)];
    }

    /** download_and_print; `completed` is false when it raised. */
    method DownloadAndPrint(fileUrl: Json, fileName: Json, fetch: string -> HttpResult<Bytes>) returns (completed: bool)
      modifies this`trace
      ensures trace == old(trace) + Commands.DownloadAndPrint(gCodeFolder, fileUrl, fileName, fetch)
      ensures completed <==> Downloadable(fileUrl, fileName, fetch)
    {
      if !fileUrl.JString? {
        trace := trace + [Raise(InvalidUrl)];
        return false;
      }
      var url := fileUrl.str;
      trace := trace + [Get(url)];
      var r := fetch(url);
      if r.TransportFailure? {
        trace := trace + [Raise(ConnectionFailure)];
        return false;
      }
      if RaisesForStatus(r.status) {
        trace := trace + [Raise(HttpStatus(r.status))];
        return false;
      }
      if !fileName.JString? {
        trace := trace + [Raise(TypeMismatch)];
        return false;
      }
      var targetPath := Join(gCodeFolder, fileName.str);
      trace := trace + [WriteFile(targetPath, r.body)];
      trace := trace + [SelectFile(targetPath, false, true)];
      return true;
    }

    /**
      send_printer_status, with `settings` what the host's settings store holds
      at this call; `completed` is false when it raised.
    */
    method SendPrinterStatus(settings: Settings, body: Json, net: Network) returns (completed: bool)
      modifies this`trace
      ensures trace == old(trace) + Send(settings, gCodeFolder, body, net)
      ensures completed <==> !Aborted(Send(settings, gCodeFolder, body, net))
    {
      var combinedToken := settings.authToken;
      if combinedToken.None? || combinedToken.value == "" {
        trace := trace + [Warn(TOKEN_WARNING)];
        return true;
      }
      var split := SplitToken(combinedToken.value);
      if split.Err? {
        trace := trace + [Raise(split.error)];
        return false;
      }
      var printerId, printerToken := split.value.0, split.value.1;
      var headers := AuthHeaders(printerId, printerToken);
      var endpoint := settings.endpointPrefix + STATUS_RESOURCE;
      var request := Post(endpoint, headers, body);
      trace := trace + [request];
      var reply := ReplyElements(net.post);
      if reply.Err? {
        trace := trace + [Raise(reply.error)];
        assert Send(settings, gCodeFolder, body, net) == [request, Raise(reply.error)];
        return false;
      }
      ghost var commands := Dispatch(gCodeFolder, reply.value, net.fetch);
      completed := ExecuteCommands(reply.value, net.fetch);
      assert Send(settings, gCodeFolder, body, net) == [request] + commands;
      AppendRegroup(old(trace), [request], commands);
      AppendAborted([request], commands);
    }

    /** The loop of send_printer_status over the reply's elements; `completed` is false when one raised. */
    method ExecuteCommands(commands: seq<Json>, fetch: string -> HttpResult<Bytes>) returns (completed: bool)
      modifies this`trace
      ensures trace == old(trace) + Dispatch(gCodeFolder, commands, fetch)
      ensures completed <==> !Aborted(Dispatch(gCodeFolder, commands, fetch))
    {
      ghost var done: seq<Action> := [];
      assert commands[0..] == commands;
      var i := 0;
      while i < |commands|
        invariant 0 <= i <= |commands|
        invariant trace == old(trace) + done
        invariant done + Dispatch(gCodeFolder, commands[i..], fetch) == Dispatch(gCodeFolder, commands, fetch)
        invariant !Aborted(done)
      {
        ghost var step := Perform(gCodeFolder, Decode(commands[i]), fetch);
        DispatchStep(gCodeFolder, commands, i, fetch, done);
        var ok := ExecuteCommand(Decode(commands[i]), fetch);
        AppendRegroup(old(trace), done, step);
        if !ok {
          return false;
        }
        done := done + step;
        i := i + 1;
      }
      assert commands[i..] == [];
      return true;
    }

    /** Lines 149-156 for one element whose lookups have been made; `completed` is false when it raised. */
    method ExecuteCommand(command: Result<Command, Error>, fetch: string -> HttpResult<Bytes>) returns (completed: bool)
      modifies this`trace
      ensures trace == old(trace) + Perform(gCodeFolder, command, fetch)
      ensures completed <==> !Aborted(Perform(gCodeFolder, command, fetch))
    {
      if command.Err? {
        trace := trace + [Raise(command.error)];
        return false;
      }
      match command.value {
        case Print(fileUrl, fileName) =>
          completed := DownloadAndPrint(fileUrl, fileName, fetch);
        case Cancel =>
          trace := trace + [CancelPrint];
          completed := true;
        case Pause =>
          trace := trace + [PausePrint];
          completed := true;
        case Resume =>
          trace := trace + [ResumePrint];
          completed := true;
        case Unrecognised =>
          completed := true;
      }
    }

    /** on_event, with `settings` what the host's settings store holds when the event arrives. */
    method OnEvent(settings: Settings, event: string, payload: Json, snapshot: Snapshot, net: Network)
      modifies this`trace
      ensures trace == old(trace) + Reporting.OnEvent(Ctx(), settings, event, payload, snapshot, net)
    {
      if REPORTED_EVENT_PREFIX <= event {
        var data := OctoprintData(snapshot);
        var completed := SendPrinterStatus(settings, EventBody(event, payload, data), net);
      }
    }

    /** cleanup_data_dir, with the folder's listing and the clock as inputs. */
    method CleanupDataDir(listing: seq<DirEntry>, now: int)
      modifies this`trace
      ensures trace == old(trace) + CleanupActions(gCodeFolder, listing, now)
    {
      var entries := Candidates(gCodeFolder, listing);
      var i := 0;
      while i < |entries|
        invariant 0 <= i <= |entries|
        invariant trace + Removals(entries[i..], now) == old(trace) + Removals(entries, now)
      {
        assert entries[i..][0] == entries[i] && entries[i..][1..] == entries[i + 1..];
        var (mtime, path) := entries[i];
        if mtime < now - CLEANUP_AGE {
          trace := trace + [RemoveFile(path)];
        }
        i := i + 1;
      }
    }

    /**
      main_loop under its backoff decorator, for as many passes as `ticks` has:
      an exception from a pass is caught by the decorator, which enters
      main_loop again with both timestamps back at 0.
    */
    method MainLoop(ticks: seq<Tick>)
      modifies this`trace
      ensures trace == old(trace) + Run(Ctx(), ENTRY, ticks)
    {
      ghost var ctx, start, done := Ctx(), trace, [];
      var lastPoll, lastCleanupDir := 0, 0;
      var i := 0;
      while i < |ticks|
        invariant 0 <= i <= |ticks|
        invariant ctx == Ctx()
        invariant trace == start + done
        invariant done + Run(ctx, Timestamps(lastPoll, lastCleanupDir), ticks[i..]) == Run(ctx, ENTRY, ticks)
      {
        ghost var pass := Iteration(ctx, Timestamps(lastPoll, lastCleanupDir), ticks[i]);
        RunStep(ctx, Timestamps(lastPoll, lastCleanupDir), ticks, i, done);
        lastPoll, lastCleanupDir := MainLoopPass(lastPoll, lastCleanupDir, ticks[i]);
        AppendRegroup(start, done, pass.actions);
        done := done + pass.actions;
        i := i + 1;
      }
      assert ticks[i..] == [];
    }

    /**
      One pass of main_loop's `while True` from the given timestamps; the
      timestamps it returns are those the next pass starts from, both 0 when
      the pass raised and the backoff decorator entered main_loop again.
    */
    method MainLoopPass(lastPoll: int, lastCleanupDir: int, tick: Tick) returns (nextPoll: int, nextCleanupDir: int)
      modifies this`trace
      ensures var pass := Iteration(Ctx(), Timestamps(lastPoll, lastCleanupDir), tick);
        && trace == old(trace) + pass.actions
        && Timestamps(nextPoll, nextCleanupDir) == if Aborted(pass.actions) then ENTRY else pass.next
    {
      IterationSchedule(Ctx(), Timestamps(lastPoll, lastCleanupDir), tick);
      nextPoll, nextCleanupDir := lastPoll, lastCleanupDir;
      ghost var report: seq<Action> := [];
      if lastPoll < tick.pollNow - POLL_INTERVAL {
        nextPoll := tick.pollNow;
        var data := OctoprintData(tick.snapshot);
        report := Report(Ctx(), tick);
        var completed := SendPrinterStatus(tick.settings, PollBody(data), tick.net);
        if !completed {
          return 0, 0;
        }
      }
      if lastCleanupDir < tick.cleanupNow - CLEANUP_DIR_INTERVAL {
        nextCleanupDir := tick.cleanupNow;
        AppendRegroup(old(trace), report, CleanupActions(gCodeFolder, tick.listing, tick.cleanupNow));
        CleanupDataDir(tick.listing, tick.cleanupNow);
      }
    }
  }
}
