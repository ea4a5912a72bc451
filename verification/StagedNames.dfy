/** The names bridge requests are queued and staged under. */
module StagedNames {
  import opened Common

  const REQ := ".req"

  const MIN_LEN: nat := 8
  const MAX_LEN: nat := 64

  predicate IsKeyChar(c: char) { 'a' <= c <= 'z' || '0' <= c <= '9' || c == '-' }

  /** A request key friring accepts. */
  predicate ValidKey(raw: string) {
    MIN_LEN <= |raw| <= MAX_LEN && forall i :: 0 <= i < |raw| ==> IsKeyChar(raw[i])
  }

  predicate EndsWith(s: string, suffix: string) {
    |suffix| <= |s| && s[|s| - |suffix|..] == suffix
  }

  /** `name` without any number of `.req` at its end. */
  function TrimReq(name: string): string
    decreases |name|
  {
    if EndsWith(name, REQ) then TrimReq(name[..|name| - 4]) else name
  }

  function SafeChar(c: char): char {
    if 'a' <= c <= 'z' || 'A' <= c <= 'Z' || '0' <= c <= '9' || c == '-' || c == '_' || c == '.' then c else '-'
  }

  /** A session key reduced to one path segment that cannot become a path. */
  function SanitizeSignalKey(raw: string): string {
    var cleaned := seq(|raw|, i requires 0 <= i < |raw| => SafeChar(raw[i]));
    if forall i :: 0 <= i < |cleaned| ==> cleaned[i] == '.' then "session" else cleaned
  }

  /** The name a taken request waits under. */
  function StagedName(session: string, key: string): string {
    SanitizeSignalKey(session) + "__" + key + REQ
  }

  predicate SplitsAt(s: string, i: nat) { i + 2 <= |s| && s[i] == '_' && s[i + 1] == '_' }

  /** Where the first `__` is. */
  function FindSplit(s: string): (r: Option<nat>)
    ensures r.Some? ==> SplitsAt(s, r.value) && forall i :: 0 <= i < r.value ==> !SplitsAt(s, i)
    ensures r.None? ==> forall i :: 0 <= i < |s| ==> !SplitsAt(s, i)
  {
    if |s| < 2 then None
    else if SplitsAt(s, 0) then Some(0)
    else
      assert forall i :: 0 < i < |s| ==> (SplitsAt(s, i) <==> SplitsAt(s[1..], i - 1));
      match FindSplit(s[1..]) case Some(i) => Some(i + 1) case None => None
  }

  /** Split a staged name back into its session and its key. */
  function ParseStagedName(name: string): Option<(string, string)> {
    if !EndsWith(name, REQ) then None else
    var stem := name[..|name| - 4];
    match FindSplit(stem)
    case None => None
    case Some(i) =>
      var session, key := stem[..i], stem[i + 2..];
      if session == "" || !ValidKey(key) then None else Some((session, key))
  }

  /** A session key whose staged names can be read back. */
  predicate Recoverable(session: string) {
    SanitizeSignalKey(session) == session && FindSplit(session).None? && session[|session| - 1..] != "_"
  }

  lemma SanitizedIsOneSegment(raw: string)
    ensures var s := SanitizeSignalKey(raw);
      && s != "" && (forall i :: 0 <= i < |s| ==> SafeChar(s[i]) == s[i])
      && (exists i :: 0 <= i < |s| && s[i] != '.')
      && SanitizeSignalKey(s) == s
  {
    var s := SanitizeSignalKey(raw);
    if s == "session" {
      assert s[0] == 's';
    }
    assert seq(|s|, i requires 0 <= i < |s| => SafeChar(s[i])) == s;
  }

  /** Sanitizing replaces each unsafe character by a dash, unless nothing but dots is there to keep. */
  lemma SanitizedPointwise(raw: string)
    ensures var s := SanitizeSignalKey(raw);
      if forall i :: 0 <= i < |raw| ==> raw[i] == '.' then s == "session" else
      && |s| == |raw|
      && forall i :: 0 <= i < |raw| ==>
        (var c := raw[i];
         var safe := 'a' <= c <= 'z' || 'A' <= c <= 'Z' || '0' <= c <= '9' || c == '-' || c == '_' || c == '.';
         s[i] == if safe then c else '-')
  {
    var cleaned := seq(|raw|, i requires 0 <= i < |raw| => SafeChar(raw[i]));
    if i :| 0 <= i < |raw| && raw[i] != '.' {
      assert cleaned[i] != '.';
    }
  }

  /** Small hexadecimal digits and dashes: what session ids and generated keys are made of. */
  predicate IsUuidText(s: string) {
    |s| == 36 && forall i :: 0 <= i < |s| ==> '0' <= s[i] <= '9' || 'a' <= s[i] <= 'f' || s[i] == '-'
  }

  /** The ids friring makes are keys it accepts and session keys whose staged names it can read back. */
  lemma UuidsAreGood(id: string)
    requires IsUuidText(id)
    ensures ValidKey(id) && SanitizeSignalKey(id) == id && Recoverable(id)
  {
    SanitizedPointwise(id);
    assert id[0] != '.';
    hide SanitizeSignalKey;
    assert SanitizeSignalKey(id) == id;
    hide FindSplit;
    assert id[35..] == [id[35]];
  }

  /** Keys may be 8 to 64 characters long, and each a small letter, a digit or a dash. */
  lemma KeysOfOneChar(c: char, n: nat)
    ensures ValidKey(seq(n, i => c)) <==> 8 <= n <= 64 && ('a' <= c <= 'z' || '0' <= c <= '9' || c == '-')
  {
    var key := seq(n, i => c);
    if n > 0 {
      assert key[0] == c;
    }
  }

  /** A staged name is one path segment of safe characters, and bounded in what the key adds. */
  lemma StagedNameIsSegment(session: string, key: string)
    requires ValidKey(key)
    ensures var name := StagedName(session, key);
      && (forall i :: 0 <= i < |name| ==> SafeChar(name[i]) == name[i])
      && |name| <= |SanitizeSignalKey(session)| + 70
  {
    SanitizedIsOneSegment(session);
    hide SanitizeSignalKey;
  }

  lemma FirstSplitIs(s: string, i: nat)
    requires SplitsAt(s, i) && forall j :: 0 <= j < i ==> !SplitsAt(s, j)
    ensures FindSplit(s) == Some(i)
  {}

  /** Any name that parses names a session and a valid key, and is exactly what they print. */
  lemma ParsedIsWellFormed(name: string)
    requires ParseStagedName(name).Some?
    ensures var (session, key) := ParseStagedName(name).value;
      session != "" && ValidKey(key) && name == session + "__" + key + REQ
  {}

  lemma StagedNameParts(session: string, key: string)
    ensures var name, stem := StagedName(session, key), SanitizeSignalKey(session) + "__" + key;
      EndsWith(name, REQ) && |name| >= 4 && name[..|name| - 4] == stem
  {
    var stem := SanitizeSignalKey(session) + "__" + key;
    assert StagedName(session, key) == stem + REQ;
  }

  lemma SplitsInSession(session: string, key: string, i: nat)
    requires i < |session|
    ensures SplitsAt(session + "__" + key, i) <==> SplitsAt(session, i) || (i == |session| - 1 && session[i] == '_')
  {
    var stem := session + "__" + key;
    assert stem[i] == session[i] && stem[|session|] == '_';
    assert i + 1 < |session| ==> stem[i + 1] == session[i + 1];
  }

  /** The separator is the first `__` exactly when the session has none and does not end in `_`. */
  lemma SplitsBehindSession(session: string, key: string)
    requires session != ""
    ensures FindSplit(session + "__" + key) == Some(|session|)
      <==> FindSplit(session).None? && session[|session| - 1..] != "_"
    ensures (session + "__" + key)[..|session|] == session && (session + "__" + key)[|session| + 2..] == key
  {
    var stem := session + "__" + key;
    hide FindSplit;
    forall i | 0 <= i < |session|
      ensures SplitsAt(stem, i) <==> SplitsAt(session, i) || (i == |session| - 1 && session[i] == '_')
    {
      SplitsInSession(session, key, i);
    }
    assert SplitsAt(stem, |session|);
    assert session[|session| - 1..] == [session[|session| - 1]];
    hide SplitsAt;
    if FindSplit(session).None? && session[|session| - 1..] != "_" {
      FirstSplitIs(stem, |session|);
    }
  }

  /**
   * Parsing a staged name gives back its session and key exactly when sanitizing leaves the session
   * key alone, and it neither contains `__` nor ends in `_`.
   */
  lemma StagedNameRoundTripIff(session: string, key: string)
    requires ValidKey(key)
    ensures ParseStagedName(StagedName(session, key)) == Some((session, key)) <==>
      session != "" && Recoverable(session)
  {
    hide SanitizeSignalKey, FindSplit, ValidKey, EndsWith;
    var s, name := SanitizeSignalKey(session), StagedName(session, key);
    StagedNameParts(session, key);
    if session != "" {
      SplitsBehindSession(session, key);
    }
    if ParseStagedName(name) == Some((session, key)) {
      ParsedIsWellFormed(name);
      var stem := s + "__" + key;
      assert session + "__" + key + REQ == name == stem + REQ;
      assert |session| == |s| && name[..|s|] == s && name[..|session|] == session;
      assert FindSplit(stem) == Some(|s|);
    }
  }

  /** A queue name that is a key and one `.req` strips to that key. */
  lemma TrimOfQueueName(key: string)
    requires ValidKey(key)
    ensures EndsWith(key + REQ, REQ) && TrimReq(key + REQ) == key
  {
    var name := key + REQ;
    assert name[..|name| - 4] == key;
    assert key[|key| - 4..][0] == key[|key| - 4];
  }

  /** What stripping leaves does not end in the suffix. */
  lemma {:induction false} TrimIsDone(name: string)
    ensures !EndsWith(TrimReq(name), REQ)
    decreases |name|
  {
    if EndsWith(name, REQ) {
      TrimIsDone(name[..|name| - 4]);
    }
  }

  /** A queue name is its request's own exactly when it ends in one suffix and no more. */
  lemma OwnNameIff(name: string)
    requires EndsWith(name, REQ)
    ensures TrimReq(name) + REQ == name <==> !EndsWith(name[..|name| - 4], REQ)
  {
    var stem := name[..|name| - 4];
    assert name == stem + REQ;
    if EndsWith(stem, REQ) {
      TrimIsDone(name);
      assert (TrimReq(name) + REQ)[..|TrimReq(name)|] == TrimReq(name);
    }
  }

  /** Repeated suffixes are all stripped, so two queue names can name one request. */
  lemma RepeatedSuffixAliases(key: string)
    requires ValidKey(key)
    ensures key + REQ + REQ != key + REQ && TrimReq(key + REQ + REQ) == TrimReq(key + REQ)
  {
    var name := key + REQ + REQ;
    assert name[..|name| - 4] == key + REQ;
    assert EndsWith(name, REQ);
    TrimOfQueueName(key);
  }
}
