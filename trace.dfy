/**
  The observable effects of the plugin. Every call into the network, the file
  system, the printer or the logger that the plugin makes is recorded as one
  Action; an exception that leaves the plugin is recorded as a final Raise.
*/
module Trace {
  import opened JsonData

  newtype byte = x: int | 0 <= x < 256

  type Bytes = seq<byte>

  /** The Python exceptions the decision layer can raise. */
  datatype Error =
    | TokenUnpack             // ValueError: the token split gave one part, not two
    | ConnectionFailure       // requests raised before any response arrived
    | HttpStatus(status: int) // requests' raise_for_status
    | JsonDecode              // resp.json() on a body that is not JSON
    | TypeMismatch            // TypeError: wrong kind of value iterated, indexed or joined
    | KeyMissing(key: string) // KeyError on a dict lookup
    | InvalidUrl              // requests rejected a file_url that is not a string

  /** What the environment answers to one HTTP request. */
  datatype HttpResult<B> = Received(status: int, body: B) | TransportFailure

  /** requests' Response.raise_for_status raises for client (4xx) and server (5xx) errors only. */
  predicate RaisesForStatus(status: int) {
    400 <= status < 600
  }

  datatype Action =
    | Warn(message: string)
    | Post(url: string, headers: map<string, string>, body: Json)
    | Get(url: string)
    | WriteFile(path: string, content: Bytes)
    | SelectFile(path: string, sd: bool, printAfterSelect: bool)
    | CancelPrint
    | PausePrint
    | ResumePrint
    | RemoveFile(path: string)
    | Raise(error: Error)

  /** The call that produced trace `t` ended with an exception. */
  predicate Aborted(t: seq<Action>) {
    |t| > 0 && t[|t| - 1].Raise?
  }

  /** An exception is only ever the last thing a call does. */
  predicate RaisesLast(t: seq<Action>) {
    forall i | 0 <= i < |t| - 1 :: !t[i].Raise?
  }

  /** The requests made of the printer itself. */
  predicate IsDeviceAction(a: Action) {
    a.SelectFile? || a.CancelPrint? || a.PausePrint? || a.ResumePrint?
  }

  /** The printer requests of `t`, in the order they were made. */
  function DeviceActions(t: seq<Action>): (d: seq<Action>)
    ensures |d| <= |t|
    ensures (forall a | a in t :: !IsDeviceAction(a)) ==> d == []
  {
    if t == [] then []
    else (if IsDeviceAction(t[0]) then [t[0]] else []) + DeviceActions(t[1..])
  }

  lemma {:induction false} DeviceActionsAppend(s: seq<Action>, t: seq<Action>)
    ensures DeviceActions(s + t) == DeviceActions(s) + DeviceActions(t)
  {
    if s == [] {
      assert s + t == t;
    } else {
      var head := if IsDeviceAction(s[0]) then [s[0]] else [];
      assert (s + t)[0] == s[0] && (s + t)[1..] == s[1..] + t;
      assert DeviceActions(s + t) == head + DeviceActions(s[1..] + t);
      DeviceActionsAppend(s[1..], t);
      AppendRegroup(head, DeviceActions(s[1..]), DeviceActions(t));
    }
  }

  /** A trace continued by a non-empty call ends as that call ends. */
  lemma AppendAborted(s: seq<Action>, t: seq<Action>)
    ensures Aborted(s + t) <==> if t == [] then Aborted(s) else Aborted(t)
  {
    if t == [] {
      assert s + t == s;
    }
  }

  /** Regrouping of appended traces, stated once so that callers need not re-derive it. */
  lemma AppendRegroup(s: seq<Action>, t: seq<Action>, u: seq<Action>)
    ensures (s + t) + u == s + (t + u)
  {
  }

  /** A call that did not raise, followed by another, raises at most once and only last. */
  lemma AppendRaisesLast(s: seq<Action>, t: seq<Action>)
    requires RaisesLast(s) && !Aborted(s) && RaisesLast(t)
    ensures RaisesLast(s + t)
  {
    assert forall i | 0 <= i < |s| :: (s + t)[i] == s[i];
    assert forall i | |s| <= i < |s + t| :: (s + t)[i] == t[i - |s|];
  }
}
