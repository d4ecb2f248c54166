/**
  The printer credential: the configured auth_token is "<printer id>;<printer token>"
  and is split on its first ';' (octoprint_printqueue/__init__.py:136).
*/
module Credentials {
  import opened Wrappers
  import opened Trace

  const SEPARATOR: char := ';'

  /** Position of the first `c` in `s`, if any. */
  function FindFirst(s: string, c: char): (r: Option<nat>)
    ensures r.None? <==> c !in s
    ensures r.Some? ==> r.value < |s| && s[r.value] == c && c !in s[..r.value]
  {
    if s == [] then None
    else if s[0] == c then Some(0)
    else
      match FindFirst(s[1..], c)
      case None => None
      case Some(i) =>
        assert s[..i + 1] == [s[0]] + s[1..][..i];
        Some(i + 1)
  }

  /**
    `printer_id, printer_token = token.split(";", 1)`: the id is what precedes the
    first ';', the secret all that follows it (further ';' included). Without a ';'
    the split yields one part and the unpacking raises ValueError.
  */
  function SplitToken(token: string): (r: Result<(string, string), Error>)
    ensures r.Err? <==> SEPARATOR !in token
    ensures r.Err? ==> r.error == TokenUnpack
    ensures r.Ok? ==> r.value.0 + [SEPARATOR] + r.value.1 == token && SEPARATOR !in r.value.0
  {
    match FindFirst(token, SEPARATOR)
    case None => Err(TokenUnpack)
    case Some(i) =>
      assert token == token[..i] + [SEPARATOR] + token[i + 1..];
      Ok((token[..i], token[i + 1..]))
  }

  /** Only one position can be the first occurrence of `c`. */
  lemma FirstIsUnique(s: string, c: char, i: nat, j: nat)
    requires i < |s| && s[i] == c && c !in s[..i]
    requires j < |s| && s[j] == c && c !in s[..j]
    ensures i == j
  {
    assert forall k | 0 <= k < j :: s[..j][k] == s[k];
    assert forall k | 0 <= k < i :: s[..i][k] == s[k];
  }

  /** Joining an id free of ';' to any secret and splitting again gives both back. */
  lemma SplitTokenRoundTrip(id: string, secret: string)
    requires SEPARATOR !in id
    ensures SplitToken(id + [SEPARATOR] + secret) == Ok((id, secret))
  {
    var token := id + [SEPARATOR] + secret;
    assert SEPARATOR in token by { assert token[|id|] == SEPARATOR; }
    var (a, b) := SplitToken(token).value;
    assert token[|a|] == SEPARATOR && token[..|a|] == a;
    assert token[|id|] == SEPARATOR && token[..|id|] == id;
    FirstIsUnique(token, SEPARATOR, |a|, |id|);
    assert a == id;
    assert b == token[|a| + 1..] == secret;
  }

  /** Empty parts are not rejected: ";" is the empty id with the empty secret. */
  lemma EmptyPartsAccepted()
    ensures SplitToken([SEPARATOR]) == Ok(([], []))
  {
    SplitTokenRoundTrip([], []);
  }
}
