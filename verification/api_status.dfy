/** The key-status endpoint (app/api/api_status.py): one probe request to
    the quote provider, classified by the keys of its payload, with the
    configured key shown masked.  The probe's outcome is a parameter, as in
    the quote endpoints. */
module ApiStatus {
  import opened Common
  import opened Text
  import opened PyJson
  import opened Quotes

  /** A status reply: the reported status, or a 500 with its detail.
      `usageInfo` is absent from the error-status body. */
  datatype StatusReply =
    | Status(status: string, message: Json, apiKey: string, usageInfo: Option<string>)
    | StatusError(detail: string)

  const NoteKey: string := "Note"
  const ErrorKey: string := "Error Message"
  const ErrorPrefix: string := "Error checking API status: "
  const ValidMessage: string := "API key is valid and working"
  const UsageInfo: string := "Standard API call frequency is 5 calls per minute and 500 calls per day"

  // ---------------------------------------------------------------------------
  // The masked key
  // ---------------------------------------------------------------------------

  /** `key[:5] + "..." + key[-5:]`: the first five and the last five
      characters around an ellipsis; a shorter key shows in both halves. */
  function Mask(key: string): (r: string)
    ensures |r| == 3 + 2 * (if |key| < 5 then |key| else 5)
    ensures r[|r| / 2 - 1..|r| / 2 + 2] == "..."
  {
    PyPrefix(key, 5) + "..." + PyLast(key, 5)
  }

  /** The mask of a key of five characters or more has thirteen characters,
      and keys that agree on their first five and last five characters are
      masked alike: the middle is hidden. */
  lemma MaskHidesTheMiddle(a: string, b: string)
    requires |a| >= 5 && |b| >= 5
    requires a[..5] == b[..5] && a[|a| - 5..] == b[|b| - 5..]
    ensures |Mask(a)| == 13
    ensures Mask(a) == Mask(b)
  {
  }

  /** The ends of the key can be read back from its mask. */
  lemma MaskShowsTheEnds(key: string)
    requires |key| >= 5
    ensures Mask(key)[..5] == key[..5]
    ensures Mask(key)[8..] == key[|key| - 5..]
  {
    var m := Mask(key);
    assert m == key[..5] + "..." + key[|key| - 5..];
  }

  /** A key of at most ten characters is not hidden at all: the mask and
      the key's length give it back whole. */
  lemma {:induction false} ShortKeyIsExposed(key: string)
    requires 5 <= |key| <= 10
    ensures key == Mask(key)[..5] + Mask(key)[13 - (|key| - 5)..]
  {
    MaskShowsTheEnds(key);
    var m := Mask(key);
    var tail := m[8..];
    assert m[13 - (|key| - 5)..] == tail[|tail| - (|key| - 5)..];
    assert key[|key| - 5..][5 - (|key| - 5)..] == key[5..];
    assert key == key[..5] + key[5..];
  }

  /** A key shorter than five characters appears twice in its mask. */
  lemma VeryShortKeyShowsTwice(key: string)
    requires |key| < 5
    ensures Mask(key) == key + "..." + key
  {
  }

  /** Different keys can share a mask. */
  lemma MasksCollide()
    ensures Mask("abcde") == Mask("abcdeabcde") == "abcde...abcde"
  {
    assert "abcdeabcde"[..5] == "abcde";
    assert "abcdeabcde"[5..] == "abcde";
  }

  // ---------------------------------------------------------------------------
  // GET /status
  // ---------------------------------------------------------------------------

  /** The key as configured: the environment variable, or `None` when it
      is unset.  Slicing `None` raises. */
  function MaskedKey(key: Option<string>): (r: Outcome<string>)
    ensures r.Value? <==> key.Some?
    ensures r.Value? ==> r.value == Mask(key.value)
  {
    match key
    case None => Raised("'NoneType' object is not subscriptable")
    case Some(k) => Value(Mask(k))
  }

  /** A status body, built after its message: the masked key is the last
      thing computed, and an unset key fails there. */
  function Report(status: string, message: Json, key: Option<string>, usageInfo: Option<string>): (r: StatusReply)
    ensures r.Status? <==> key.Some?
    ensures r.Status? ==> r == Status(status, message, Mask(key.value), usageInfo)
  {
    match MaskedKey(key)
    case Raised(m) => StatusError(ErrorPrefix + m)
    case Value(masked) => Status(status, message, masked, usageInfo)
  }

  /** `get_api_status`: a payload with a "Note" (the provider's rate-limit
      notice) reports an active key with that note; otherwise one with an
      "Error Message" reports an error status with that message and no
      usage line; otherwise the key is reported valid.  Every exception —
      from the request, the decoding, the membership tests, the lookups or
      the masking of an unset key — becomes a 500 whose detail is prefixed
      with "Error checking API status: ". */
  function GetApiStatus(key: Option<string>, fetched: FetchOutcome): (r: StatusReply)
    ensures r.StatusError? ==> IsPrefixOf(ErrorPrefix, r.detail)
    ensures fetched.FetchFailed? ==> r == StatusError(ErrorPrefix + fetched.message)
    ensures fetched.Fetched? && fetched.data.JDict? && key.Some? ==> r.Status?
    ensures r.Status? ==> fetched.Fetched? && IsContainer(fetched.data) && key.Some?
    ensures r.Status? ==> r.apiKey == Mask(key.value)
    ensures r.Status? ==> (r.status == "active" || r.status == "error")
    ensures r.Status? ==> (r.usageInfo.Some? <==> r.status == "active")
    ensures r.Status? && r.usageInfo.Some? ==> r.usageInfo.value == UsageInfo
  {
    match fetched
    case FetchFailed(message) => StatusError(ErrorPrefix + message)
    case Fetched(data) =>
      match HasKey(data, NoteKey)
      case Raised(message) => StatusError(ErrorPrefix + message)
      case Value(hasNote) =>
        if hasNote then
          match Subscript(data, NoteKey)
          case Raised(message) => StatusError(ErrorPrefix + message)
          case Value(note) => Report("active", note, key, Some(UsageInfo))
        else
          match HasKey(data, ErrorKey)
          case Raised(message) => StatusError(ErrorPrefix + message)
          case Value(hasError) =>
            if hasError then
              match Subscript(data, ErrorKey)
              case Raised(message) => StatusError(ErrorPrefix + message)
              case Value(error) => Report("error", error, key, None)
            else Report("active", JStr(ValidMessage), key, Some(UsageInfo))
  }

  /** `p` begins `s`. */
  predicate IsPrefixOf(p: string, s: string) {
    |p| <= |s| && s[..|p|] == p
  }

  /** On a dictionary payload the reply is decided by the two keys alone,
      a "Note" taking precedence over an "Error Message". */
  lemma DictionaryStatus(key: string, fields: map<string, Json>)
    ensures var r := GetApiStatus(Some(key), Fetched(JDict(fields)));
      && r.Status?
      && (r.status == "error" <==> NoteKey !in fields && ErrorKey in fields)
      && r.message == (if NoteKey in fields then fields[NoteKey]
                       else if ErrorKey in fields then fields[ErrorKey]
                       else JStr(ValidMessage))
  {
    var data := JDict(fields);
    var masked := Mask(key);
    assert HasKey(data, NoteKey) == Value(NoteKey in fields);
    if NoteKey in fields {
      assert GetApiStatus(Some(key), Fetched(data)) == Status("active", fields[NoteKey], masked, Some(UsageInfo));
    } else {
      assert HasKey(data, ErrorKey) == Value(ErrorKey in fields);
      if ErrorKey in fields {
        assert GetApiStatus(Some(key), Fetched(data)) == Status("error", fields[ErrorKey], masked, None);
      } else {
        assert GetApiStatus(Some(key), Fetched(data)) == Status("active", JStr(ValidMessage), masked, Some(UsageInfo));
      }
    }
  }

  /** A list payload holding the string "Note" passes the first membership
      test and fails at the lookup. */
  lemma ListWithNoteIsServerError(key: Option<string>, items: seq<Json>)
    requires JStr(NoteKey) in items
    ensures GetApiStatus(key, Fetched(JList(items)))
            == StatusError(ErrorPrefix + "list indices must be integers or slices, not str")
  {
  }

  /** A scalar payload fails at the first membership test. */
  lemma ScalarPayloadIsServerError(key: Option<string>, data: Json)
    requires !IsContainer(data)
    ensures GetApiStatus(key, Fetched(data))
            == StatusError(ErrorPrefix + "argument of type '" + TypeName(data) + "' is not iterable")
  {
  }

  /** An unset key never yields a status: either the probe fails or the
      masking does, and the reply is a 500. */
  lemma UnsetKeyIsServerError(fetched: FetchOutcome)
    ensures GetApiStatus(None, fetched).StatusError?
    ensures fetched.Fetched? && fetched.data.JDict? ==>
      GetApiStatus(None, fetched) == StatusError(ErrorPrefix + "'NoneType' object is not subscriptable")
  {
  }
}
