/**
  Turning the status endpoint's reply into printer requests
  (octoprint_printqueue/__init__.py:148-164): each element of the decoded reply
  is looked at in order, and its "command" string picks one printer action.
*/
module Commands {
  import opened Wrappers
  import opened JsonData
  import opened Trace
  import opened Paths

  /** The four commands the plugin knows, and everything else. */
  datatype Command = Print(fileUrl: Json, fileName: Json) | Cancel | Pause | Resume | Unrecognised

  /** Python's `value[key]` on a decoded JSON value: only a dict can be indexed by a string. */
  function Lookup(j: Json, key: string): (r: Result<Json, Error>)
    ensures r.Ok? <==> j.JObject? && key in j.fields
    ensures r.Ok? ==> r.value == j.fields[key]
    ensures r.Err? ==> r.error == if j.JObject? then KeyMissing(key) else TypeMismatch
  {
    match j
    case JObject(fields) => if key in fields then Ok(fields[key]) else Err(KeyMissing(key))
    case _ => Err(TypeMismatch)
  }

  /**
    The elements `for command in resp.json()` visits, or the TypeError it meets
    first. A dict yields its keys and a string its characters; both are strings,
    so the first `command["command"]` on one raises TypeError, and only an empty
    dict or string gets through without one.
  */
  function Elements(body: Json): (r: Result<seq<Json>, Error>)
    ensures r.Ok? <==> body.JArray? || body == JObject(map[]) || body == JString("")
    ensures r.Ok? ==> r.value == if body.JArray? then body.items else []
    ensures r.Err? ==> r.error == TypeMismatch
  {
    match body
    case JArray(items) => Ok(items)
    case JObject(fields) => if fields == map[] then Ok([]) else Err(TypeMismatch)
    case JString(s) => if s == "" then Ok([]) else Err(TypeMismatch)
    case _ => Err(TypeMismatch)
  }

  /** The lookups of lines 149-156, in the order Python makes them. */
  function Decode(c: Json): (r: Result<Command, Error>)
    ensures Lookup(c, "command").Err? ==> r == Err(Lookup(c, "command").error)
    ensures r == Ok(Cancel) <==> Lookup(c, "command") == Ok(JString("cancel"))
    ensures r == Ok(Pause) <==> Lookup(c, "command") == Ok(JString("pause"))
    ensures r == Ok(Resume) <==> Lookup(c, "command") == Ok(JString("resume"))
    ensures r == Ok(Unrecognised) <==>
      Lookup(c, "command").Ok? &&
      Lookup(c, "command").value !in {JString("print"), JString("cancel"), JString("pause"), JString("resume")}
    ensures r.Ok? && r.value.Print? <==>
      && Lookup(c, "command") == Ok(JString("print"))
      && Lookup(c, "data").Ok?
      && Lookup(Lookup(c, "data").value, "file_url").Ok?
      && Lookup(Lookup(c, "data").value, "file_name").Ok?
    ensures r.Ok? && r.value.Print? ==>
      && r.value.fileUrl == Lookup(Lookup(c, "data").value, "file_url").value
      && r.value.fileName == Lookup(Lookup(c, "data").value, "file_name").value
    ensures r.Err? ==> Lookup(c, "command").Err? || Lookup(c, "command") == Ok(JString("print"))
    ensures r.Err? && Lookup(c, "command") == Ok(JString("print")) ==>
      var data := Lookup(c, "data");
      r.error == if data.Err? then data.error
                 else if Lookup(data.value, "file_url").Err? then Lookup(data.value, "file_url").error
                 else Lookup(data.value, "file_name").error
  {
    var kind :- Lookup(c, "command");
    if kind == JString("print") then
      var data :- Lookup(c, "data");
      var fileUrl :- Lookup(data, "file_url");
      var fileName :- Lookup(data, "file_name");
      Ok(Print(fileUrl, fileName))
    else if kind == JString("cancel") then Ok(Cancel)
    else if kind == JString("pause") then Ok(Pause)
    else if kind == JString("resume") then Ok(Resume)
    else Ok(Unrecognised)
  }

  /** A download of `fileUrl` that succeeds and can be stored under `fileName`. */
  predicate Downloadable(fileUrl: Json, fileName: Json, fetch: string -> HttpResult<Bytes>) {
    && fileUrl.JString?
    && fetch(fileUrl.str).Received?
    && !RaisesForStatus(fetch(fileUrl.str).status)
    && fileName.JString?
  }

  /**
    download_and_print: GET the url, check the status, write the body to
    join(folder, name), then ask the printer to select that file and print it.
    A url that is not a string is rejected by requests before any request is
    made; a name that is not a string makes the join raise after the GET.
  */
  function DownloadAndPrint(folder: string, fileUrl: Json, fileName: Json,
                            fetch: string -> HttpResult<Bytes>): (t: seq<Action>)
    ensures 0 < |t| <= 3 && RaisesLast(t)
    ensures forall a | a in t :: a.Get? || a.WriteFile? || a.SelectFile? || a.Raise?
    ensures t[0].Get? <==> fileUrl.JString?
    ensures t[0].Get? ==> t[0].url == fileUrl.str
    ensures !Aborted(t) <==> Downloadable(fileUrl, fileName, fetch)
    ensures Aborted(t) ==> forall a | a in t :: !a.WriteFile? && !a.SelectFile?
    ensures !fileUrl.JString? ==> t == [Raise(InvalidUrl)]
    ensures fileUrl.JString? && !Downloadable(fileUrl, fileName, fetch) ==>
      var r := fetch(fileUrl.str);
      t == [Get(fileUrl.str),
            Raise(if r.TransportFailure? then ConnectionFailure
                  else if RaisesForStatus(r.status) then HttpStatus(r.status)
                  else TypeMismatch)]
    ensures !Aborted(t) ==>
      var path := Join(folder, fileName.str);
      t == [Get(fileUrl.str), WriteFile(path, fetch(fileUrl.str).body), SelectFile(path, false, true)]
  {
    if !fileUrl.JString? then [Raise(InvalidUrl)]
    else
      var url := fileUrl.str;
      [Get(url)] +
        match fetch(url)
        case TransportFailure => [Raise(ConnectionFailure)]
        case Received(status, content) =>
          if RaisesForStatus(status) then [Raise(HttpStatus(status))]
          else if !fileName.JString? then [Raise(TypeMismatch)]
          else
            var path := Join(folder, fileName.str);
            [WriteFile(path, content), SelectFile(path, false, true)]
  }

  /** What one element of the reply does, once its lookups have been made. */
  function Perform(folder: string, d: Result<Command, Error>, fetch: string -> HttpResult<Bytes>): (t: seq<Action>)
    ensures RaisesLast(t)
    ensures forall a | a in t :: !a.Post? && !a.Warn? && !a.RemoveFile?
    ensures d.Err? ==> t == [Raise(d.error)]
    ensures d.Ok? && !d.value.Print? ==> t == Intended(folder, d)
    ensures forall a | a in t :: (a.Get? || a.WriteFile?) ==> FetchedFor(folder, d, a)
  {
    match d
    case Err(e) => [Raise(e)]
    case Ok(Print(fileUrl, fileName)) => DownloadAndPrint(folder, fileUrl, fileName, fetch)
    case Ok(Cancel) => [CancelPrint]
    case Ok(Pause) => [PausePrint]
    case Ok(Resume) => [ResumePrint]
    case Ok(Unrecognised) => []
  }

  /** A decoded element that is carried out without an exception. */
  predicate Succeeds(d: Result<Command, Error>, fetch: string -> HttpResult<Bytes>) {
    d.Ok? && (d.value.Print? ==> Downloadable(d.value.fileUrl, d.value.fileName, fetch))
  }

  /** An element of the reply that is carried out without an exception. */
  predicate Completes(c: Json, fetch: string -> HttpResult<Bytes>) {
    Succeeds(Decode(c), fetch)
  }

  /** The loop of lines 148-156: the elements in order, until one raises. */
  function Dispatch(folder: string, cmds: seq<Json>, fetch: string -> HttpResult<Bytes>): (t: seq<Action>)
    ensures RaisesLast(t)
    ensures forall a | a in t :: !a.Post? && !a.Warn? && !a.RemoveFile?
  {
    if cmds == [] then []
    else
      var step := Perform(folder, Decode(cmds[0]), fetch);
      if Aborted(step) then step else step + Dispatch(folder, cmds[1..], fetch)
  }

  /**
    One more element of a dispatch that has carried out `done` so far: either it
    raises and the dispatch ends with it, or it joins `done`.
  */
  lemma DispatchStep(folder: string, cmds: seq<Json>, i: nat, fetch: string -> HttpResult<Bytes>, done: seq<Action>)
    requires i < |cmds|
    requires done + Dispatch(folder, cmds[i..], fetch) == Dispatch(folder, cmds, fetch)
    requires !Aborted(done)
    ensures var step := Perform(folder, Decode(cmds[i]), fetch);
      && (Aborted(step) ==> done + step == Dispatch(folder, cmds, fetch) && Aborted(done + step))
      && (!Aborted(step) ==> (done + step) + Dispatch(folder, cmds[i + 1..], fetch) == Dispatch(folder, cmds, fetch))
      && (!Aborted(step) ==> !Aborted(done + step))
  {
    var step := Perform(folder, Decode(cmds[i]), fetch);
    assert cmds[i..][0] == cmds[i] && cmds[i..][1..] == cmds[i + 1..];
    AppendAborted(done, step);
    AppendRegroup(done, step, Dispatch(folder, cmds[i + 1..], fetch));
  }

  /**
    `a` is the download or the file write that print element `d` asks for: a GET
    of its file_url, or a write to its file_name joined to the folder.
  */
  predicate FetchedFor(folder: string, d: Result<Command, Error>, a: Action) {
    && d.Ok? && d.value.Print?
    && (a.Get? ==> d.value.fileUrl == JString(a.url))
    && (a.WriteFile? ==> d.value.fileName.JString? && a.path == Join(folder, d.value.fileName.str))
  }

  /** Every download and every file write of a reply is the one some print element of it asks for. */
  lemma {:induction false} DispatchFetchesOnlyForPrints(folder: string, cmds: seq<Json>, fetch: string -> HttpResult<Bytes>)
    ensures forall a | a in Dispatch(folder, cmds, fetch) && (a.Get? || a.WriteFile?) ::
      exists i :: 0 <= i < |cmds| && FetchedFor(folder, Decode(cmds[i]), a)
  {
    if cmds != [] {
      var step := Perform(folder, Decode(cmds[0]), fetch);
      assert forall a | a in step && (a.Get? || a.WriteFile?) :: FetchedFor(folder, Decode(cmds[0]), a);
      if !Aborted(step) {
        var rest := cmds[1..];
        DispatchFetchesOnlyForPrints(folder, rest, fetch);
        forall a | a in Dispatch(folder, rest, fetch) && (a.Get? || a.WriteFile?)
          ensures exists i :: 0 <= i < |cmds| && FetchedFor(folder, Decode(cmds[i]), a)
        {
          var j :| 0 <= j < |rest| && FetchedFor(folder, Decode(rest[j]), a);
          assert cmds[j + 1] == rest[j];
        }
      }
    }
  }

  /** The printer request a decoded element asks for, whatever the network and file system do. */
  function Intended(folder: string, d: Result<Command, Error>): (r: seq<Action>)
    ensures |r| <= 1 && forall a | a in r :: IsDeviceAction(a)
    ensures d.Err? || d == Ok(Unrecognised) ==> r == []
  {
    match d
    case Ok(Print(JString(_), JString(name))) => [SelectFile(Join(folder, name), false, true)]
    case Ok(Cancel) => [CancelPrint]
    case Ok(Pause) => [PausePrint]
    case Ok(Resume) => [ResumePrint]
    case _ => []
  }

  /** The printer requests a reply asks for, one per recognised command, in reply order. */
  function IntendedDeviceActions(folder: string, cmds: seq<Json>): (r: seq<Action>)
    ensures |r| <= |cmds| && forall a | a in r :: IsDeviceAction(a)
  {
    if cmds == [] then [] else Intended(folder, Decode(cmds[0])) + IntendedDeviceActions(folder, cmds[1..])
  }

  lemma PerformDeviceActions(folder: string, d: Result<Command, Error>, fetch: string -> HttpResult<Bytes>)
    ensures Aborted(Perform(folder, d, fetch)) <==> !Succeeds(d, fetch)
    ensures DeviceActions(Perform(folder, d, fetch)) == if Succeeds(d, fetch) then Intended(folder, d) else []
  {
    var t := Perform(folder, d, fetch);
    match d
    case Ok(Print(fileUrl, fileName)) =>
      DownloadDeviceActions(folder, fileUrl, fileName, fetch);
    case Err(_) =>
    case Ok(Unrecognised) =>
    case Ok(_) =>
      assert DeviceActions(t[1..]) == [];
  }

  /** A download asks the printer for one thing, the selection, and only when it went through. */
  lemma DownloadDeviceActions(folder: string, fileUrl: Json, fileName: Json, fetch: string -> HttpResult<Bytes>)
    ensures DeviceActions(DownloadAndPrint(folder, fileUrl, fileName, fetch)) ==
            if Downloadable(fileUrl, fileName, fetch) then [SelectFile(Join(folder, fileName.str), false, true)] else []
  {
    var t := DownloadAndPrint(folder, fileUrl, fileName, fetch);
    if Downloadable(fileUrl, fileName, fetch) {
      assert DeviceActions(t[2..]) == [t[2]];
      assert DeviceActions(t[1..]) == [t[2]];
    } else {
      assert forall a | a in t :: !IsDeviceAction(a);
    }
  }

  /** One carried-out element followed by the rest of the reply. */
  lemma DispatchCons(folder: string, cmds: seq<Json>, fetch: string -> HttpResult<Bytes>)
    requires cmds != [] && Completes(cmds[0], fetch)
    ensures Aborted(Dispatch(folder, cmds, fetch)) <==> Aborted(Dispatch(folder, cmds[1..], fetch))
    ensures DeviceActions(Dispatch(folder, cmds, fetch)) ==
            Intended(folder, Decode(cmds[0])) + DeviceActions(Dispatch(folder, cmds[1..], fetch))
  {
    var step := Perform(folder, Decode(cmds[0]), fetch);
    PerformDeviceActions(folder, Decode(cmds[0]), fetch);
    var rest := Dispatch(folder, cmds[1..], fetch);
    assert Dispatch(folder, cmds, fetch) == step + rest;
    DeviceActionsAppend(step, rest);
    if rest == [] {
      assert step + rest == step;
    } else {
      assert (step + rest)[|step + rest| - 1] == rest[|rest| - 1];
    }
  }

  /**
    When every element is carried out, the printer receives exactly the requests
    the reply asks for, in reply order; unrecognised commands contribute none.
  */
  lemma {:induction false} DispatchCompletes(folder: string, cmds: seq<Json>, fetch: string -> HttpResult<Bytes>)
    requires forall i | 0 <= i < |cmds| :: Completes(cmds[i], fetch)
    ensures !Aborted(Dispatch(folder, cmds, fetch))
    ensures DeviceActions(Dispatch(folder, cmds, fetch)) == IntendedDeviceActions(folder, cmds)
  {
    if cmds != [] {
      assert Completes(cmds[0], fetch);
      DispatchCompletes(folder, cmds[1..], fetch);
      DispatchCons(folder, cmds, fetch);
    }
  }

  /**
    When element k is the first that raises, the printer receives exactly the
    requests of the elements before it, and the dispatch ends with the exception.
  */
  lemma {:induction false} DispatchStopsAtFirstFailure(folder: string, cmds: seq<Json>,
                                                        fetch: string -> HttpResult<Bytes>, k: nat)
    requires k < |cmds| && !Completes(cmds[k], fetch)
    requires forall i | 0 <= i < k :: Completes(cmds[i], fetch)
    ensures Aborted(Dispatch(folder, cmds, fetch))
    ensures DeviceActions(Dispatch(folder, cmds, fetch)) == IntendedDeviceActions(folder, cmds[..k])
  {
    if k == 0 {
      PerformDeviceActions(folder, Decode(cmds[0]), fetch);
      assert Dispatch(folder, cmds, fetch) == Perform(folder, Decode(cmds[0]), fetch);
      assert cmds[..k] == [];
    } else {
      assert Completes(cmds[0], fetch);
      forall i | 0 <= i < k - 1
        ensures Completes(cmds[1..][i], fetch)
      {
        assert cmds[1..][i] == cmds[i + 1];
      }
      DispatchStopsAtFirstFailure(folder, cmds[1..], fetch, k - 1);
      DispatchCons(folder, cmds, fetch);
      assert cmds[..k][0] == cmds[0];
      assert cmds[..k][1..] == cmds[1..][..k - 1];
    }
  }

  /**
    Whatever the network does, the printer requests made are a prefix of those
    the reply asks for, in reply order; they are all of them exactly when no
    element raises.
  */
  lemma {:induction false} DispatchFollowsReply(folder: string, cmds: seq<Json>, fetch: string -> HttpResult<Bytes>)
    ensures DeviceActions(Dispatch(folder, cmds, fetch)) <= IntendedDeviceActions(folder, cmds)
    ensures !Aborted(Dispatch(folder, cmds, fetch)) <==> forall i | 0 <= i < |cmds| :: Completes(cmds[i], fetch)
    ensures !Aborted(Dispatch(folder, cmds, fetch)) ==>
            DeviceActions(Dispatch(folder, cmds, fetch)) == IntendedDeviceActions(folder, cmds)
  {
    if cmds == [] {
    } else if !Completes(cmds[0], fetch) {
      PerformDeviceActions(folder, Decode(cmds[0]), fetch);
      assert Dispatch(folder, cmds, fetch) == Perform(folder, Decode(cmds[0]), fetch);
    } else {
      DispatchFollowsReply(folder, cmds[1..], fetch);
      DispatchCons(folder, cmds, fetch);
      AllCompleteCons(cmds, fetch);
    }
  }

  /** Every element completes exactly when the first does and every later one does. */
  lemma AllCompleteCons(cmds: seq<Json>, fetch: string -> HttpResult<Bytes>)
    requires cmds != []
    ensures (forall i | 0 <= i < |cmds| :: Completes(cmds[i], fetch)) <==>
            Completes(cmds[0], fetch) && forall i | 0 <= i < |cmds[1..]| :: Completes(cmds[1..][i], fetch)
  {
    assert forall i | 0 <= i < |cmds| - 1 :: cmds[1..][i] == cmds[i + 1];
    assert forall i | 0 < i < |cmds| :: cmds[i] == cmds[1..][i - 1];
  }
}
