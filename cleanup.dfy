/** Retention of the queue folder (cleanup_data_dir, octoprint_printqueue/__init__.py:170-183). */
module Cleanup {
  import opened Trace
  import opened Paths

  /** Files older than two weeks are removed. */
  const CLEANUP_AGE := 60 * 60 * 24 * 14
  const KEPT_SUFFIX := ".json"

  /** One name listed by os.listdir, with what os.stat says of it. */
  datatype DirEntry = DirEntry(name: string, isRegular: bool, mtime: int)

  predicate EndsWith(s: string, suffix: string) {
    |suffix| <= |s| && s[|s| - |suffix|..] == suffix
  }

  /**
    Lines 174-178: the names not ending in ".json", joined to the folder, and of
    those the regular files, as (mtime, path) pairs in listing order.
  */
  function Candidates(folder: string, listing: seq<DirEntry>): (c: seq<(int, string)>)
    ensures |c| <= |listing|
    ensures forall x | x in c :: exists e | e in listing :: Kept(e) && x == (e.mtime, Join(folder, e.name))
    ensures forall e | e in listing && Kept(e) :: (e.mtime, Join(folder, e.name)) in c
  {
    if listing == [] then []
    else
      var e := listing[0];
      (if Kept(e) then [(e.mtime, Join(folder, e.name))] else []) + Candidates(folder, listing[1..])
  }

  /** An entry that survives the two filters of lines 174 and 178. */
  predicate Kept(e: DirEntry) {
    !EndsWith(e.name, KEPT_SUFFIX) && e.isRegular
  }

  predicate IsExpired(mtime: int, now: int) {
    mtime < now - CLEANUP_AGE
  }

  /** Lines 180-183: remove each candidate whose mtime is past the age limit, in order. */
  function Removals(candidates: seq<(int, string)>, now: int): (t: seq<Action>)
    ensures |t| <= |candidates|
    ensures forall a | a in t :: a.RemoveFile?
  {
    if candidates == [] then []
    else
      (if IsExpired(candidates[0].0, now) then [RemoveFile(candidates[0].1)] else [])
        + Removals(candidates[1..], now)
  }

  /** The removals are exactly those of the expired candidates. */
  lemma {:induction false} RemovalsExactlyExpired(candidates: seq<(int, string)>, now: int)
    ensures var t := Removals(candidates, now);
      && (forall a | a in t :: exists x | x in candidates :: IsExpired(x.0, now) && a == RemoveFile(x.1))
      && (forall x | x in candidates && IsExpired(x.0, now) :: RemoveFile(x.1) in t)
  {
    if candidates != [] {
      var head := if IsExpired(candidates[0].0, now) then [RemoveFile(candidates[0].1)] else [];
      assert Removals(candidates, now) == head + Removals(candidates[1..], now);
      RemovalsExactlyExpired(candidates[1..], now);
      assert forall x | x in candidates :: x == candidates[0] || x in candidates[1..];
      assert forall x | x in candidates[1..] :: x in candidates;
    }
  }

  /** cleanup_data_dir's effects on the queue folder's listing at clock reading `now`. */
  function CleanupActions(folder: string, listing: seq<DirEntry>, now: int): (t: seq<Action>)
    ensures |t| <= |listing| && forall a | a in t :: a.RemoveFile?
  {
    Removals(Candidates(folder, listing), now)
  }

  /** An entry the cleanup is meant to delete. */
  predicate Stale(e: DirEntry, now: int) {
    Kept(e) && IsExpired(e.mtime, now)
  }

  /**
    A path is removed exactly when some listed entry joined to the folder gives
    it and that entry is a regular file, not named *.json, and older than the
    age limit; nothing else is removed.
  */
  lemma {:induction false} RemovesExactlyStale(folder: string, listing: seq<DirEntry>, now: int, p: string)
    ensures RemoveFile(p) in CleanupActions(folder, listing, now) <==>
            exists e | e in listing :: Stale(e, now) && p == Join(folder, e.name)
  {
    if listing != [] {
      var e := listing[0];
      var head := if !EndsWith(e.name, KEPT_SUFFIX) && e.isRegular then [(e.mtime, Join(folder, e.name))] else [];
      var rest := Candidates(folder, listing[1..]);
      assert Candidates(folder, listing) == head + rest;
      RemovalsAppend(head, rest, now);
      RemovesExactlyStale(folder, listing[1..], now, p);
      assert forall x | x in listing :: x == e || x in listing[1..];
    }
  }

  lemma {:induction false} RemovalsAppend(s: seq<(int, string)>, t: seq<(int, string)>, now: int)
    ensures Removals(s + t, now) == Removals(s, now) + Removals(t, now)
  {
    if s == [] {
      assert s + t == t;
    } else {
      var head := if IsExpired(s[0].0, now) then [RemoveFile(s[0].1)] else [];
      assert (s + t)[0] == s[0] && (s + t)[1..] == s[1..] + t;
      assert Removals(s + t, now) == head + Removals(s[1..] + t, now);
      RemovalsAppend(s[1..], t, now);
      assert Removals(s, now) == head + Removals(s[1..], now);
    }
  }
}
