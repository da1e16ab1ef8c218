/** Session keys and the flat strings they are stored under. */
module StorageKeys {
  import opened Wrappers
  import opened Text

  datatype SessionKey = SessionKey(projectKey: string, sessionId: string, subpath: Option<string>)

  function StorageKey(key: SessionKey): string {
    if key.subpath.Some?
    then key.projectKey + "/" + key.sessionId + "/" + key.subpath.value
    else key.projectKey + "/" + key.sessionId
  }

  function SessionPrefix(projectKey: string, sessionId: string): string {
    projectKey + "/" + sessionId + "/"
  }

  /** What sanitized project keys and UUID session ids guarantee. */
  predicate SlashFree(key: SessionKey) {
    '/' !in key.projectKey && '/' !in key.sessionId
  }

  function StripPrefix(s: string, prefix: string): Option<string> {
    if prefix <= s then Some(s[|prefix|..]) else None
  }

  /** Reads a key back from its string, cutting at the first two slashes. */
  function KeyOf(s: string): Option<SessionKey> {
    var (projectKey, tail) :- SplitOnce(s, '/');
    match SplitOnce(tail, '/')
    case None => Some(SessionKey(projectKey, tail, None))
    case Some((sessionId, subpath)) => Some(SessionKey(projectKey, sessionId, Some(subpath)))
  }

  /** A slash-free key is read back from its string. */
  lemma KeyRoundTrip(key: SessionKey)
    requires SlashFree(key)
    ensures KeyOf(StorageKey(key)) == Some(key)
  {
    if key.subpath.Some? {
      var tail := key.sessionId + "/" + key.subpath.value;
      assert StorageKey(key) == key.projectKey + "/" + tail;
      SplitOnceJoined(key.projectKey, '/', tail);
      SplitOnceJoined(key.sessionId, '/', key.subpath.value);
    } else {
      SplitOnceJoined(key.projectKey, '/', key.sessionId);
    }
  }

  /** Distinct slash-free keys are stored under distinct strings. */
  lemma StorageKeyInjective(a: SessionKey, b: SessionKey)
    requires SlashFree(a) && SlashFree(b) && StorageKey(a) == StorageKey(b)
    ensures a == b
  {
    KeyRoundTrip(a);
    KeyRoundTrip(b);
  }

  /** A session's prefix covers exactly its subpath keys. */
  lemma PrefixCovers(key: SessionKey, projectKey: string, sessionId: string)
    requires SlashFree(key) && '/' !in projectKey && '/' !in sessionId
    ensures SessionPrefix(projectKey, sessionId) <= StorageKey(key)
            <==> key.subpath.Some? && key.projectKey == projectKey && key.sessionId == sessionId
    ensures SessionPrefix(projectKey, sessionId) <= StorageKey(key)
            ==> StripPrefix(StorageKey(key), SessionPrefix(projectKey, sessionId)) == key.subpath
  {
    var prefix, s := SessionPrefix(projectKey, sessionId), StorageKey(key);
    if prefix <= s {
      var rest := s[|prefix|..];
      var other := SessionKey(projectKey, sessionId, Some(rest));
      assert s == StorageKey(other);
      StorageKeyInjective(key, other);
    }
  }

  /** A project's prefix followed by a slash-free rest is exactly one of its
      main transcripts. */
  lemma ProjectCovers(key: SessionKey, projectKey: string)
    requires SlashFree(key) && '/' !in projectKey
    ensures var rest := StripPrefix(StorageKey(key), projectKey + "/");
            (rest.Some? && '/' !in rest.value) <==> key.projectKey == projectKey && key.subpath.None?
    ensures key.projectKey == projectKey && key.subpath.None?
            ==> StripPrefix(StorageKey(key), projectKey + "/") == Some(key.sessionId)
  {
    var prefix, s := projectKey + "/", StorageKey(key);
    if prefix <= s && '/' !in s[|prefix|..] {
      var other := SessionKey(projectKey, s[|prefix|..], None);
      assert s == StorageKey(other);
      StorageKeyInjective(key, other);
    }
  }

  lemma FirstCut(s: string, c: char)
    requires c in s
    ensures SplitOnce(s, c).Some?
    ensures var (a, b) := SplitOnce(s, c).value; s == a + [c] + b && c !in a
  {
    var i := FirstIndexOf(s, c).value;
    assert s == s[..i] + [c] + s[i + 1..];
  }

  lemma CutReadsBack(projectKey: string, tail: string)
    requires '/' !in projectKey
    ensures var s := projectKey + "/" + tail;
            KeyOf(s).Some? && SlashFree(KeyOf(s).value) && StorageKey(KeyOf(s).value) == s
  {
    var key := SessionKey(projectKey, tail, None);
    if '/' in tail {
      FirstCut(tail, '/');
      var (sessionId, subpath) := SplitOnce(tail, '/').value;
      key := SessionKey(projectKey, sessionId, Some(subpath));
      assert StorageKey(key) == projectKey + "/" + (sessionId + "/" + subpath);
    }
    KeyRoundTrip(key);
  }

  /** Every key's string reads back as a slash-free key stored under it. */
  lemma ReadsAsSlashFree(key: SessionKey)
    ensures var s := StorageKey(key);
            KeyOf(s).Some? && SlashFree(KeyOf(s).value) && StorageKey(KeyOf(s).value) == s
  {
    var s := StorageKey(key);
    assert s[|key.projectKey|] == '/';
    FirstCut(s, '/');
    var (projectKey, tail) := SplitOnce(s, '/').value;
    CutReadsBack(projectKey, tail);
  }

  /** A key is read back from its string exactly when it is slash-free. */
  lemma KeyRoundTripExactly(key: SessionKey)
    ensures KeyOf(StorageKey(key)) == Some(key) <==> SlashFree(key)
  {
    if SlashFree(key) { KeyRoundTrip(key); } else { ReadsAsSlashFree(key); }
  }

  /** A key shares its string with some slash-free key other than itself
      exactly when it is not slash-free: each string belongs to one slash-free
      key, and every other key under it is a clash. */
  lemma ClashesExactly(key: SessionKey)
    ensures (exists other :: other != key && SlashFree(other) && StorageKey(other) == StorageKey(key))
            <==> !SlashFree(key)
  {
    ReadsAsSlashFree(key);
    KeyRoundTripExactly(key);
    if other :| other != key && SlashFree(other) && StorageKey(other) == StorageKey(key) { KeyRoundTrip(other); }
  }

  /** One such clash: without the guarantee two sessions share a string. */
  lemma SlashesCollide()
    ensures var a, b := SessionKey("p/q", "s", None), SessionKey("p", "q/s", None);
            a != b && StorageKey(a) == StorageKey(b)
  {
    assert "p/q" + "/" + "s" == "p" + "/" + "q/s";
  }
}
