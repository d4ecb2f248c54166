/**
  One status report (send_printer_status, octoprint_printqueue/__init__.py:130-156),
  the event trigger (on_event, lines 83-91) and the status data (octoprint_data,
  lines 108-113).
*/
module Reporting {
  import opened Wrappers
  import opened JsonData
  import opened Trace
  import opened Credentials
  import opened Commands

  const STATUS_RESOURCE := "api/printer_statuses.json"
  const TOKEN_WARNING := "Auth token is not configured."
  const REPORTED_EVENT_PREFIX := "Print"

  /**
    The two settings send_printer_status reads from the host's settings store
    at each call; the user may change them between calls.
  */
  datatype Settings = Settings(authToken: Option<string>, endpointPrefix: string)

  /** The plugin's state after start-up: the queue folder, and the host's port and address. */
  datatype Context = Context(folder: string, port: int, ip: string)

  /** What the printer collaborator reports: current data and temperatures. */
  datatype Snapshot = Snapshot(current: map<string, Json>, temperatures: Json)

  /**
    What the network answers during one report: the reply to the POST (its
    status, and its body decoded as JSON, None when it is not JSON), and the
    reply to a GET of each url.
  */
  datatype Network = Network(post: HttpResult<Option<Json>>, fetch: string -> HttpResult<Bytes>)

  /** `if not combined_token`: an absent or empty token is not configured. */
  predicate TokenConfigured(settings: Settings) {
    settings.authToken.Some? && settings.authToken.value != ""
  }

  function AuthHeaders(printerId: string, printerToken: string): map<string, string> {
    map["X-Printer-Id" := printerId, "X-Printer-Token" := printerToken]
  }

  /**
    The commands in a POST reply: raise_for_status, then resp.json(), then
    iteration, each of which can raise first.
  */
  function ReplyElements(post: HttpResult<Option<Json>>): (r: Result<seq<Json>, Error>)
    ensures post.TransportFailure? ==> r == Err(ConnectionFailure)
    ensures post.Received? && RaisesForStatus(post.status) ==> r == Err(HttpStatus(post.status))
    ensures post.Received? && !RaisesForStatus(post.status) && post.body.None? ==> r == Err(JsonDecode)
    ensures r.Ok? <==> post.Received? && !RaisesForStatus(post.status) && post.body.Some? && Elements(post.body.value).Ok?
    ensures r.Ok? ==> r == Elements(post.body.value)
  {
    match post
    case TransportFailure => Err(ConnectionFailure)
    case Received(status, decoded) =>
      if RaisesForStatus(status) then Err(HttpStatus(status))
      else if decoded.None? then Err(JsonDecode)
      else Elements(decoded.value)
  }

  /** send_printer_status(body), with the queue folder where downloads go. */
  function Send(settings: Settings, folder: string, body: Json, net: Network): (t: seq<Action>)
    ensures |t| > 0 && RaisesLast(t)
    ensures forall a | a in t :: !a.RemoveFile?
    ensures t[0].Post? <==> TokenConfigured(settings) && SEPARATOR in settings.authToken.value
    ensures forall i | 0 < i < |t| :: !t[i].Post? && !t[i].Warn?
    ensures !TokenConfigured(settings) ==> t == [Warn(TOKEN_WARNING)]
    ensures t[0].Post? ==> t[0].url == settings.endpointPrefix + STATUS_RESOURCE && t[0].body == body
  {
    if !TokenConfigured(settings) then [Warn(TOKEN_WARNING)]
    else
      match SplitToken(settings.authToken.value)
      case Err(e) => [Raise(e)]
      case Ok((printerId, printerToken)) =>
        var request := Post(settings.endpointPrefix + STATUS_RESOURCE, AuthHeaders(printerId, printerToken), body);
        var rest := match ReplyElements(net.post)
          case Err(e) => [Raise(e)]
          case Ok(cmds) => Dispatch(folder, cmds, net.fetch);
        AppendRaisesLast([request], rest);
        [request] + rest
  }

  /** A token without ';' raises at the unpacking, before any request. */
  lemma TokenWithoutSeparatorRaises(settings: Settings, folder: string, body: Json, net: Network)
    requires TokenConfigured(settings) && SEPARATOR !in settings.authToken.value
    ensures Send(settings, folder, body, net) == [Raise(TokenUnpack)]
  {
  }

  /**
    A token "<id>;<secret>" (id free of ';') makes exactly one request, first, to
    the endpoint prefix followed by the status resource, authenticated by the two
    headers, with the given body.
  */
  lemma RequestShape(settings: Settings, printerId: string, printerToken: string,
                     folder: string, body: Json, net: Network)
    requires settings.authToken == Some(printerId + [SEPARATOR] + printerToken)
    requires SEPARATOR !in printerId
    ensures var t := Send(settings, folder, body, net);
      t[0] == Post(settings.endpointPrefix + "api/printer_statuses.json",
                   map["X-Printer-Id" := printerId, "X-Printer-Token" := printerToken], body)
  {
    SplitTokenRoundTrip(printerId, printerToken);
  }

  /**
    When the POST fails, its status is an error, or its body yields no command
    list, the report raises right after the request and the printer is asked
    for nothing.
  */
  lemma FailedReplyExecutesNothing(settings: Settings, folder: string, body: Json, net: Network)
    requires ReplyElements(net.post).Err?
    ensures var t := Send(settings, folder, body, net);
      |t| <= 2 && DeviceActions(t) == [] && (TokenConfigured(settings) ==> Aborted(t))
  {
    var t := Send(settings, folder, body, net);
    assert forall a | a in t :: !IsDeviceAction(a);
  }

  /**
    When the reply is a command list, the printer requests of the whole report
    are a prefix of those the list asks for, in list order, and all of them
    exactly when no command raises.
  */
  lemma ReportFollowsReply(settings: Settings, folder: string, body: Json, net: Network, cmds: seq<Json>)
    requires TokenConfigured(settings) && SEPARATOR in settings.authToken.value
    requires ReplyElements(net.post) == Ok(cmds)
    ensures var t := Send(settings, folder, body, net);
      && DeviceActions(t) <= IntendedDeviceActions(folder, cmds)
      && (!Aborted(t) <==> forall i | 0 <= i < |cmds| :: Completes(cmds[i], net.fetch))
      && (!Aborted(t) ==> DeviceActions(t) == IntendedDeviceActions(folder, cmds))
  {
    var t := Send(settings, folder, body, net);
    var d := Dispatch(folder, cmds, net.fetch);
    assert t == [t[0]] + d;
    DeviceActionsAppend([t[0]], d);
    assert DeviceActions([t[0]]) == [];
    DispatchFollowsReply(folder, cmds, net.fetch);
    if d == [] {
      assert t == [t[0]];
    } else {
      assert t[|t| - 1] == d[|d| - 1];
    }
  }

  /**
    The report's status data: the printer's current data with the temperatures,
    the port and the address added (or overwritten) and every other key kept.
  */
  function StatusData(snapshot: Snapshot, port: int, ip: string): (data: map<string, Json>)
    ensures data.Keys == snapshot.current.Keys + {"temperatures", "octoprint_port", "octoprint_ip"}
    ensures data["temperatures"] == snapshot.temperatures
    ensures data["octoprint_port"] == JNumber(port) && data["octoprint_ip"] == JString(ip)
    ensures forall k | k in snapshot.current && k !in {"temperatures", "octoprint_port", "octoprint_ip"} ::
      data[k] == snapshot.current[k]
  {
    snapshot.current["temperatures" := snapshot.temperatures]
                    ["octoprint_port" := JNumber(port)]
                    ["octoprint_ip" := JString(ip)]
  }

  /** The body of a timer report: `{"octoprint_data": data}`. */
  function PollBody(data: map<string, Json>): (b: Json)
    ensures b.JObject? && b.fields.Keys == {"octoprint_data"} && b.fields["octoprint_data"] == JObject(data)
  {
    JObject(map["octoprint_data" := JObject(data)])
  }

  /** The body of an event report: the event envelope beside the status data. */
  function EventBody(event: string, payload: Json, data: map<string, Json>): (b: Json)
    ensures b.JObject? && b.fields.Keys == {"octoprint_event", "octoprint_data"}
    ensures b.fields["octoprint_event"] == JObject(map["event_type" := JString(event), "data" := payload])
    ensures b.fields["octoprint_data"] == JObject(data)
  {
    JObject(map["octoprint_event" := JObject(map["event_type" := JString(event), "data" := payload]),
                "octoprint_data" := JObject(data)])
  }

  /** on_event: only events whose name starts with "Print" are reported. */
  function OnEvent(ctx: Context, settings: Settings, event: string, payload: Json, snapshot: Snapshot, net: Network): (t: seq<Action>)
    ensures t != [] <==> REPORTED_EVENT_PREFIX <= event
    ensures t != [] ==> t == Send(settings, ctx.folder, EventBody(event, payload, StatusData(snapshot, ctx.port, ctx.ip)), net)
  {
    if REPORTED_EVENT_PREFIX <= event then
      Send(settings, ctx.folder, EventBody(event, payload, StatusData(snapshot, ctx.port, ctx.ip)), net)
    else []
  }

  /**
    A reported event's request carries exactly two keys: the envelope
    {event_type, data} and the status data.
  */
  lemma EventReportCarriesEnvelope(ctx: Context, settings: Settings, event: string, payload: Json, snapshot: Snapshot, net: Network)
    requires REPORTED_EVENT_PREFIX <= event
    requires TokenConfigured(settings) && SEPARATOR in settings.authToken.value
    ensures var t := OnEvent(ctx, settings, event, payload, snapshot, net);
      && t[0].Post? && t[0].body.JObject?
      && t[0].body.fields.Keys == {"octoprint_event", "octoprint_data"}
      && t[0].body.fields["octoprint_event"] == JObject(map["event_type" := JString(event), "data" := payload])
      && t[0].body.fields["octoprint_data"] == JObject(StatusData(snapshot, ctx.port, ctx.ip))
  {
  }
}
