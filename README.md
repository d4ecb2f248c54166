# PrintQueue plugin: a Dafny model

The PrintQueue OctoPrint plugin ties a 3D printer to a remote print queue. From a
background loop, and on every printer event whose name starts with `Print`, it
POSTs the printer's status to `<endpoint_prefix>api/printer_statuses.json`. It
authenticates with a printer id and secret taken from the configured
`auth_token` (`"<id>;<secret>"`). It then carries out the commands in the reply,
in order:

- `print` downloads a G-code file into the queue folder, selects it and starts it.
- `cancel`, `pause` and `resume` are passed to the printer.
- Every other command is ignored.

While reports succeed, the loop also deletes old files from the queue folder
once an hour: regular files not named `*.json` whose modification time is more
than two weeks old. A pass whose report raises skips the cleanup check. The
backoff decorator then enters the loop again with both timestamps at 0, so the
first pass after that whose report does not raise cleans at once. While every
report raises (the server is down, say, or the token has no `;`), no cleanup
runs at all.

The model keeps the plugin's decision logic and turns every effect on the outside
world into an action appended to a trace:

- a warning
- a POST with its url, headers and body
- a GET
- a file write
- a file selection
- cancel, pause or resume
- a file removal
- an exception, which is the last action of the call that raised it; only
  main_loop's backoff re-entry carries the trace on after one

What the outside world answers is passed in:

- the settings (`auth_token`, `endpoint_prefix`) as each report reads them, so
  that a token the user saves while the plugin runs takes effect from the next
  report on
- the POST's reply (the status, plus the body decoded as JSON or "not JSON")
- the reply to a GET of each url
- the clock reading at each check of the loop
- the queue folder's listing, with each entry's type and mtime

Modules:

- `Trace`: actions, errors and HTTP replies.
- `Credentials`: the token split.
- `Paths`: `os.path.join`.
- `Commands`: reading one reply element, and the dispatch over the reply.
- `Reporting`: `send_printer_status`, `on_event` and `octoprint_data`.
- `Cleanup`: the retention rule.
- `Schedule`: `main_loop` under its backoff decorator.

These modules are pure functions with lemmas about them. The class
`PrintQueue.PrintQueuePlugin` holds the plugin's fields and the trace. Its
methods follow the source's statements and loops (the dispatch loop, the
cleanup loop, the `while True` loop with its two timestamps). Each method is
proved to append exactly what the matching function specifies.

Behaviour follows the code:

- **File names are not sanitised.** `file_name` is joined to the folder as it
  is, so `..` segments and absolute names escape the folder
  (`Paths.NameEscapesFolder`).
- **The token split accepts empty parts.** A token with `;` splits at the first
  `;`, and either part may be empty (`Credentials.EmptyPartsAccepted`).
- **Commands come in the nested shape.** They have the form
  `{"command": "print", "data": {"file_url": …, "file_name": …}}`.
- **Nothing resets the backoff.** `main_loop` never returns, so a successful
  pass does not reset it. The model only records that every re-entry starts
  both timestamps at 0.

Python semantics that decide some outcomes:

- **Status checks.** `raise_for_status` raises only for statuses 400 to 599.
- **Non-list replies.** Iterating a JSON body that is not a list gives nothing
  for an empty dict or string. A non-empty dict or string yields string
  elements, so it raises `TypeError` at the first `command["command"]`. A
  number, a boolean or null is not iterable, so it raises `TypeError` at the
  `for` itself. The model records both as the same `TypeError`.
- **Lookups.** A lookup on a dict without that key raises `KeyError`. A lookup
  on a non-dict raises `TypeError`.
- **A url that is not a string.** `requests` rejects it before any GET.
- **A name that is not a string.** `os.path.join` rejects it after the GET and
  the status check, before any write.

## Model

| member | source | states |
|---|---|---|
| Credentials.FindFirst | octoprint_printqueue/__init__.py:136 | the index found holds the separator and no earlier position does; none is found exactly when the separator is absent |
| Credentials.SplitToken | octoprint_printqueue/__init__.py:136 | fails, with the unpacking error, exactly when the token has no ';'; otherwise id + ";" + secret is the token and the id has no ';' |
| Credentials.SplitTokenRoundTrip | octoprint_printqueue/__init__.py:136 | for any id free of ';' and any secret (';' allowed), splitting id;secret gives back exactly that id and secret |
| Credentials.EmptyPartsAccepted | octoprint_printqueue/__init__.py:136 | the token ";" splits into an empty id and an empty secret without an error |
| Paths.Join | octoprint_printqueue/__init__.py:162 | an absolute name is the result; a relative name is appended to the folder, directly when the folder is empty or ends in '/', and after one '/' otherwise; so the result starts with the folder and ends with the name |
| Paths.NameEscapesFolder | octoprint_printqueue/__init__.py:162 | for every folder and name: an absolute name replaces the folder, and a relative one (".." segments included) is the folder text, perhaps a '/', then the name verbatim, with no normalisation |
| Paths.NameEscapesFolderExample | octoprint_printqueue/__init__.py:162 | join("/q", "../x") is "/q/../x" and join("/q", "/x") is "/x" |
| Commands.Lookup | octoprint_printqueue/__init__.py:149-150 | `value[key]` succeeds exactly on a dict holding the key, with that key's value; otherwise KeyError on a dict and TypeError on anything else |
| Commands.Elements | octoprint_printqueue/__init__.py:148 | iteration succeeds exactly for a list (its items), an empty dict or an empty string (nothing); everything else raises TypeError |
| Commands.Decode | octoprint_printqueue/__init__.py:149-156 | a failed "command" lookup is the element's error; cancel, pause and resume are decoded exactly from those command strings; print exactly from "print" with data.file_url and data.file_name both present, and it carries those two values; any other command value is unrecognised; only the "command" lookup or a print element can fail, and a print element fails with the error of its first failing lookup (data, then file_url, then file_name) |
| Commands.DownloadAndPrint | octoprint_printqueue/__init__.py:158-164 | a non-string url gives only the InvalidUrl exception; otherwise the GET comes first; nothing raises exactly when the url is a string, the GET gets a status below 400 or from 600 up, and the name is a string, and the trace is then GET, the write of the body to join(folder, name), then select with printAfterSelect; otherwise it is the GET then one exception: the connection failure, the status error, or the TypeError of the join, in that order of precedence |
| Commands.Perform | octoprint_printqueue/__init__.py:149-156 | one element raises at most once and only last, and makes no POST, warning or removal; a failed lookup gives only its exception; cancel, pause and resume make exactly their one printer call and any other command nothing at all; only a print element makes a GET, and only of its file_url, or a write, and only to its file_name joined to the folder |
| Commands.Dispatch | octoprint_printqueue/__init__.py:148-156 | the loop over the reply raises at most once and only last, and makes no POST, warning or removal |
| Commands.PerformDeviceActions | octoprint_printqueue/__init__.py:149-156 | an element raises exactly when its lookups fail or its download fails; if not, it asks the printer for what its command names (print: select join(folder, name); cancel; pause; resume; anything else: nothing), and if it raises it asks for nothing |
| Commands.DownloadDeviceActions | octoprint_printqueue/__init__.py:160-164 | a download asks the printer for one selection of join(folder, name) when it goes through and for nothing otherwise |
| Commands.DispatchFetchesOnlyForPrints | octoprint_printqueue/__init__.py:148-164 | every GET the loop makes is of the file_url of a print element of the reply, and every file write goes to the file_name of a print element joined to the queue folder |
| Commands.DispatchCompletes | octoprint_printqueue/__init__.py:148-156 | when no element raises, the printer requests are exactly those the elements name, in reply order |
| Commands.DispatchStopsAtFirstFailure | octoprint_printqueue/__init__.py:148-156 | when element k is the first that raises, the loop ends with the exception and the printer requests are exactly those of elements 0..k-1 |
| Commands.Intended | octoprint_printqueue/__init__.py:149-156 | the reference for one element: at most one printer request, none for an element whose lookups fail or whose command is unrecognised |
| Commands.IntendedDeviceActions | octoprint_printqueue/__init__.py:148-156 | the reference for a reply: printer requests only, at most one per element |
| Commands.DispatchFollowsReply | octoprint_printqueue/__init__.py:148-156 | for any network behaviour the printer requests are a prefix of those the reply names, in order; the loop completes exactly when every element completes, and then they are all of them |
| Reporting.ReplyElements | octoprint_printqueue/__init__.py:142-148 | a transport failure raises first, then an error status, then a body that is not JSON; the reply yields commands exactly when none of these happens and the body is iterable, and they are its elements |
| Reporting.Send | octoprint_printqueue/__init__.py:130-156 | an absent or empty token gives only the warning (no request, no command); a POST is first exactly when the token is configured and has ';', to endpoint_prefix + "api/printer_statuses.json" with the given body; no second POST or warning follows; nothing is removed; an exception is only last |
| Reporting.TokenWithoutSeparatorRaises | octoprint_printqueue/__init__.py:136 | a configured token without ';' raises the unpacking error before any request |
| Reporting.RequestShape | octoprint_printqueue/__init__.py:136-146 | for token id;secret, the first action is a POST to endpoint_prefix + "api/printer_statuses.json" with headers X-Printer-Id = id and X-Printer-Token = secret and the given body |
| Reporting.FailedReplyExecutesNothing | octoprint_printqueue/__init__.py:142-148 | when the POST fails, has an error status, is not JSON or is not iterable as a command list, the report raises right after the request and asks the printer for nothing |
| Reporting.ReportFollowsReply | octoprint_printqueue/__init__.py:147-156 | for a reply that is a command list, the report's printer requests are a prefix of those the list names, and all of them exactly when no element raises |
| Reporting.StatusData | octoprint_printqueue/__init__.py:108-113 | the keys are the printer's plus temperatures, octoprint_port and octoprint_ip, holding the temperatures, the port and the address; every other key keeps its value |
| Reporting.PollBody | octoprint_printqueue/__init__.py:122 | the timer report's body has the one key octoprint_data, holding the status data |
| Reporting.EventBody | octoprint_printqueue/__init__.py:85-91 | the event report's body has exactly the keys octoprint_event = {event_type: event, data: payload} and octoprint_data |
| Reporting.OnEvent | octoprint_printqueue/__init__.py:83-91 | an event is reported exactly when its name starts with "Print", and then as a report of the event body |
| Reporting.EventReportCarriesEnvelope | octoprint_printqueue/__init__.py:84-91 | a reported event's request body has exactly the keys octoprint_event = {event_type: event, data: payload} and octoprint_data = the status data |
| Cleanup.Candidates | octoprint_printqueue/__init__.py:174-178 | every candidate is (mtime, join(folder, name)) of a listed regular file not named *.json, and every such file is a candidate |
| Cleanup.Removals | octoprint_printqueue/__init__.py:180-183 | only removals, at most one per candidate |
| Cleanup.RemovalsExactlyExpired | octoprint_printqueue/__init__.py:180-183 | every removal is of an expired candidate's path, and every expired candidate's path is removed |
| Cleanup.CleanupActions | octoprint_printqueue/__init__.py:170-183 | the cleanup only removes files, at most one per listed entry |
| Cleanup.RemovesExactlyStale | octoprint_printqueue/__init__.py:174-183 | a path is removed exactly when some listed entry joined to the folder gives it and that entry is a regular file, not *.json, with mtime < now - 1209600 |
| Schedule.Report | octoprint_printqueue/__init__.py:122 | the timer report raises only last, and its POST, if any, goes to the endpoint of the settings read for it with body {"octoprint_data": status data} |
| Schedule.Iteration | octoprint_printqueue/__init__.py:119-126 | a pass leaves each timestamp where it was or at its own clock reading, and raises at most once, last |
| Schedule.Run | octoprint_printqueue/__init__.py:115-128 | a run over no ticks does nothing, and a run begins with its first pass's effects |
| Schedule.IterationSchedule | octoprint_printqueue/__init__.py:119-126 | a report is made, first, exactly when last_poll < now - 30; the cleanup exactly when last_cleanup_dir < now - 3600 and the report did not raise; each check moves only its own timestamp, to now; the pass raises exactly when its report raised |
| Schedule.ReportPrecedesCleanup | octoprint_printqueue/__init__.py:120-126 | within a pass, no removal precedes a request, download or printer action |
| Schedule.FirstPassAfterEntry | octoprint_printqueue/__init__.py:115-126 | from both timestamps at 0, a pass reports when now > 30, and reports then cleans when also now > 3600 and the report did not raise |
| Schedule.PollsAreSpaced | octoprint_printqueue/__init__.py:120-122 | after a report at time now that did not raise, no report is due at any time up to now + 30 |
| Schedule.RestartAfterException | octoprint_printqueue/__init__.py:115-118 | after a pass that raised, the run continues as a fresh main_loop with both timestamps at 0 |
| Schedule.RunRemovesOnlyStale | octoprint_printqueue/__init__.py:116-126 | over any run of the loop, a removed path comes from an entry that was stale in the listing and at the clock of some pass |
| PrintQueue.PrintQueuePlugin.constructor | octoprint_printqueue/__init__.py:94-99 | the plugin holds the queue folder, the port and the address start-up stored, and has done nothing yet |
| PrintQueue.PrintQueuePlugin.OctoprintData | octoprint_printqueue/__init__.py:108-113 | the three in-place key updates give StatusData |
| PrintQueue.PrintQueuePlugin.DownloadAndPrint | octoprint_printqueue/__init__.py:158-164 | appends exactly the download's effects, and reports completion exactly when the download is possible |
| PrintQueue.PrintQueuePlugin.SendPrinterStatus | octoprint_printqueue/__init__.py:130-156 | with the settings as read at this call, appends exactly the report's effects and reports whether it raised |
| PrintQueue.PrintQueuePlugin.ExecuteCommands | octoprint_printqueue/__init__.py:148-156 | the loop over the reply appends exactly Dispatch's effects and reports whether an element raised |
| PrintQueue.PrintQueuePlugin.ExecuteCommand | octoprint_printqueue/__init__.py:149-156 | one element appends exactly Perform's effects and reports whether it raised |
| PrintQueue.PrintQueuePlugin.OnEvent | octoprint_printqueue/__init__.py:83-91 | appends exactly the effects of on_event |
| PrintQueue.PrintQueuePlugin.CleanupDataDir | octoprint_printqueue/__init__.py:170-183 | the loop over the candidates appends exactly the removals of the stale ones, in listing order |
| PrintQueue.PrintQueuePlugin.MainLoop | octoprint_printqueue/__init__.py:115-128 | the loop with its two timestamps, re-entered with both at 0 after an exception and reading the settings afresh for each report, appends exactly Run from both timestamps at 0 |
| PrintQueue.PrintQueuePlugin.MainLoopPass | octoprint_printqueue/__init__.py:119-128 | one pass appends exactly Iteration's effects and leaves the timestamps of the next pass (both 0 after an exception) |

## Left out

- `octoprint_printqueue/utils.py` (`ip_addr`) is socket I/O. The address it finds is a constructor parameter.
- HTTP, JSON encoding and decoding, and the file system are not modelled. Their answers are inputs (the POST reply, a GET reply per url, the folder listing), and their uses are trace actions.
- One report's GET replies are a function of the url, so the same url fetched twice within one report gets the same reply.
- A write, a printer call (select, cancel, pause, resume), an `os.stat` or an `os.remove` that fails is not modelled. Each is taken to succeed.
- The backoff decorator's delay sequence, jitter and the 240 s cap are left out, because the library's generator is not part of this model. Only the re-entry with both timestamps at 0 is modelled.
- Threads and the daemon thread started in `on_after_startup` are not modelled. Neither is the concurrency between `on_event` and `main_loop`.
- `time.sleep(1)` is left out.
- Time is in integer seconds, not floating point.
- PrintQueue.PrintQueuePlugin.MainLoopPass: one clock reading serves each check and the assignment that follows it, while the source reads the clock twice (lines 120-121, 124-125).
- PrintQueue.PrintQueuePlugin.CleanupDataDir: one clock reading serves the whole cleanup, while line 182 reads the clock again for each entry.
- `on_startup`, `on_after_startup` and `ensure_storage` are host wiring. The port, the address and the queue folder they store are constructor parameters; the settings fallback for a missing port belongs to the host.
- `get_template_configs`, `get_settings_defaults`, `get_assets`, `get_update_information` and `__plugin_load__` are metadata with no logic.
- Reporting.Send: the two settings reads of one report (lines 131 and 139) see the same settings; a change between them is not modelled.
- The debug log of the request body (lines 140-141) is left out.
- JSON numbers are integers, with no floats.
- Reporting.Send: a non-string `auth_token` setting is outside the model, because the setting is a string or absent.
- Reporting.Send: a POST that requests refuses before sending it (an endpoint prefix that is not a URL, or a header value with leading whitespace or a line break, from a token such as "id; secret") is recorded as the POST followed by the reply passed in; the run whose reply is a transport failure covers it, as an exception right after the POST.
- Commands.DownloadAndPrint: a url that is a string but not a valid URL shows up as a transport failure of the GET, not as a separate error.
