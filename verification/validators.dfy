/**
 * Form-field validators and the extraction of field errors from an API error.
 * JavaScript strings are sequences of UTF-16 code units while Dafny strings
 * are sequences of Unicode scalar values; `Utf16Length` bridges the two where
 * the source measures `.length`.
 */
module Validators {
  import opened Wrappers
  import opened ApiTypes

  // ---------------------------------------------------------------------------
  // Characters and lengths as JavaScript sees them

  /**
   * The characters JavaScript treats as white space, both for the `\s` class
   * of regular expressions and for `String.prototype.trim`: the WhiteSpace
   * and LineTerminator productions of ECMAScript.
   */
  predicate IsJsWhitespace(c: char) {
    var n := c as int;
    || n == 0x09 || n == 0x0A || n == 0x0B || n == 0x0C || n == 0x0D || n == 0x20
    || n == 0xA0 || n == 0x1680 || (0x2000 <= n <= 0x200A)
    || n == 0x2028 || n == 0x2029 || n == 0x202F || n == 0x205F || n == 0x3000 || n == 0xFEFF
  }

  /** Number of UTF-16 code units of one character. */
  function CodeUnits(c: char): nat {
    if c as int > 0xFFFF then 2 else 1
  }

  /** JavaScript's `.length`: the number of UTF-16 code units of `s`. */
  function Utf16Length(s: string): nat {
    if s == [] then 0 else CodeUnits(s[0]) + Utf16Length(s[1..])
  }

  /** Every character needs one or two code units. */
  lemma {:induction false} Utf16LengthBounds(s: string)
    ensures |s| <= Utf16Length(s) <= 2 * |s|
    ensures (forall k :: 0 <= k < |s| ==> s[k] as int <= 0xFFFF) ==> Utf16Length(s) == |s|
  {
    if s != [] {
      Utf16LengthBounds(s[1..]);
    }
  }

  // ---------------------------------------------------------------------------
  // Field validators

  /** `isMinLength`: at least `min` code units. */
  function IsMinLength(value: string, min: int): (ok: bool)
    ensures (forall k :: 0 <= k < |value| ==> value[k] as int <= 0xFFFF) ==> (ok <==> |value| >= min)
    ensures |value| >= min ==> ok
    ensures ok ==> 2 * |value| >= min
  {
    Utf16LengthBounds(value);
    Utf16Length(value) >= min
  }

  /** Drops leading white space. */
  function TrimStart(s: string): (r: string)
    ensures |r| <= |s| && r == s[|s| - |r|..]
    ensures forall k :: 0 <= k < |s| - |r| ==> IsJsWhitespace(s[k])
    ensures r != [] ==> !IsJsWhitespace(r[0])
  {
    if s != [] && IsJsWhitespace(s[0]) then TrimStart(s[1..]) else s
  }

  /** Drops trailing white space. */
  function TrimEnd(s: string): (r: string)
    ensures |r| <= |s| && r == s[..|r|]
    ensures forall k :: |r| <= k < |s| ==> IsJsWhitespace(s[k])
    ensures r != [] ==> !IsJsWhitespace(r[|r| - 1])
  {
    if s != [] && IsJsWhitespace(s[|s| - 1]) then TrimEnd(s[..|s| - 1]) else s
  }

  /** `r` is the slice of `s` starting at `a`, and everything of `s` outside that slice is white space. */
  ghost predicate StrippedAt(s: string, a: int, r: string) {
    && 0 <= a && a + |r| <= |s|
    && r == s[a..a + |r|]
    && (forall k :: 0 <= k < a ==> IsJsWhitespace(s[k]))
    && (forall k :: a + |r| <= k < |s| ==> IsJsWhitespace(s[k]))
  }

  /** `String.prototype.trim`: the input with the white space at both ends removed, and nothing else. */
  function Trim(s: string): (r: string)
    ensures exists a :: StrippedAt(s, a, r)
    ensures r != [] ==> !IsJsWhitespace(r[0]) && !IsJsWhitespace(r[|r| - 1])
  {
    var t := TrimStart(s);
    var r := TrimEnd(t);
    assert StrippedAt(s, |s| - |t|, r);
    r
  }

  /** `isRequired`: something other than white space remains after trimming. */
  function IsRequired(value: string): (ok: bool)
    ensures ok <==> exists k :: 0 <= k < |value| && !IsJsWhitespace(value[k])
  {
    Utf16Length(Trim(value)) > 0
  }

  /** `passwordsMatch`: the two entries are the same text, code unit by code unit. */
  function PasswordsMatch(password: string, confirmation: string): (ok: bool)
    ensures ok <==> |password| == |confirmation| &&
                    forall k :: 0 <= k < |password| ==> password[k] == confirmation[k]
  {
    password == confirmation
  }

  /** Which of the two entries is the password does not matter. */
  lemma PasswordsMatchSymmetric(a: string, b: string)
    ensures PasswordsMatch(a, b) == PasswordsMatch(b, a)
  {
  }

  // ---------------------------------------------------------------------------
  // E-mail addresses

  /** The class `[^\s@]` of the e-mail pattern. */
  predicate InAddressClass(c: char) {
    !IsJsWhitespace(c) && c != '@'
  }

  predicate AllInAddressClass(s: string) {
    forall k :: 0 <= k < |s| ==> InAddressClass(s[k])
  }

  /**
   * The pattern `^[^\s@]+@[^\s@]+\.[^\s@]+$`, read literally: a non-empty run,
   * `@`, a non-empty run, `.`, a non-empty run, each run free of white space and `@`.
   */
  ghost predicate MatchesEmailPattern(s: string) {
    exists i, j ::
      && 0 < i && i + 1 < j && j + 1 < |s|
      && s[i] == '@' && s[j] == '.'
      && AllInAddressClass(s[..i]) && AllInAddressClass(s[i + 1..j]) && AllInAddressClass(s[j + 1..])
  }

  /**
   * The same condition in plain words: no white space, exactly one `@` with
   * something before it, and after it a `.` with at least one character on each side.
   */
  ghost predicate EmailShape(s: string) {
    && (forall k :: 0 <= k < |s| ==> !IsJsWhitespace(s[k]))
    && exists i ::
         && 0 < i < |s| && s[i] == '@'
         && (forall k :: 0 <= k < |s| && k != i ==> s[k] != '@')
         && exists j :: i + 1 < j < |s| - 1 && s[j] == '.'
  }

  /** A text matching the pattern has the plain-words shape. */
  lemma PatternGivesShape(s: string)
    requires MatchesEmailPattern(s)
    ensures EmailShape(s)
  {
    var i, j :| && 0 < i && i + 1 < j && j + 1 < |s|
                && s[i] == '@' && s[j] == '.'
                && AllInAddressClass(s[..i]) && AllInAddressClass(s[i + 1..j]) && AllInAddressClass(s[j + 1..]);
    forall k | 0 <= k < |s| && k != i
      ensures InAddressClass(s[k])
    {
      if k < i {
        assert s[k] == s[..i][k];
      } else if k < j {
        assert s[k] == s[i + 1..j][k - i - 1];
      } else if k > j {
        assert s[k] == s[j + 1..][k - j - 1];
      }
    }
  }

  /** A text of the plain-words shape matches the pattern. */
  lemma ShapeGivesPattern(s: string)
    requires EmailShape(s)
    ensures MatchesEmailPattern(s)
  {
  }

  /** The literal reading of the pattern and the plain-words reading agree. */
  lemma EmailPatternIsEmailShape(s: string)
    ensures MatchesEmailPattern(s) <==> EmailShape(s)
  {
    if MatchesEmailPattern(s) {
      PatternGivesShape(s);
    }
  }

  /**
   * `isValidEmail`: decides the e-mail pattern in one left-to-right pass,
   * remembering the last `@`, whether an earlier `@` was seen, whether white
   * space was seen, and whether a `.` after the last `@` has a character on each side.
   */
  method IsValidEmail(s: string) returns (ok: bool)
    ensures ok <==> EmailShape(s)
  {
    var at := -1;
    var twoAts := false;
    var spaces := false;
    var dot := false;
    var n := 0;
    while n < |s|
      invariant 0 <= n <= |s|
      invariant -1 <= at < n
      invariant at >= 0 ==> s[at] == '@'
      invariant forall m :: at < m < n ==> s[m] != '@'
      invariant twoAts <==> exists m :: 0 <= m < at && s[m] == '@'
      invariant spaces <==> exists m :: 0 <= m < n && IsJsWhitespace(s[m])
      invariant dot <==> at >= 0 && exists m :: at + 1 < m < n && m < |s| - 1 && s[m] == '.'
    {
      var c := s[n];
      if c == '@' {
        twoAts := at >= 0;
        at := n;
        dot := false;
      } else if c == '.' && at >= 0 && at + 1 < n && n < |s| - 1 {
        dot := true;
      }
      if IsJsWhitespace(c) {
        spaces := true;
      }
      n := n + 1;
    }
    ok := at > 0 && !twoAts && !spaces && dot;
    if ok {
      assert forall k :: 0 <= k < |s| && k != at ==> s[k] != '@';
    }
    if EmailShape(s) {
      var i :| && 0 < i < |s| && s[i] == '@'
               && (forall k :: 0 <= k < |s| && k != i ==> s[k] != '@')
               && exists j :: i + 1 < j < |s| - 1 && s[j] == '.';
      assert at == i;
    }
  }

  // ---------------------------------------------------------------------------
  // Error extraction

  /** The message shown when an error carries nothing more specific. */
  const GenericMessage := "An unexpected error occurred. Please try again."

  /** The key under which a message not tied to a field is reported. */
  const GeneralKey := "general"

  /** Every list of messages in `errors` has a first element. */
  predicate NoEmptyLists(errors: map<string, FieldErrors>) {
    forall key :: key in errors && errors[key].Messages? ==> |errors[key].texts| > 0
  }

  /** The body `parseApiErrors` reads: the response's decoded body in preference to the error's copy. */
  function ErrorPayload(error: FetchError): (r: Option<ErrorBody>)
    ensures error.response.Some? && error.response.value.body.Some? ==> r == error.response.value.body
    ensures error.response.None? || error.response.value.body.None? ==> r == error.data
  {
    if error.response.Some? && error.response.value.body.Some? then error.response.value.body
    else error.data
  }

  /** The message displayed for one field: a list collapses to its first entry. */
  function FirstMessage(e: FieldErrors): string
    requires e.Messages? ==> |e.texts| > 0
  {
    match e
    case Message(text) => text
    case Messages(texts) => texts[0]
  }

  /** The body's `errors` object, when present and free of empty lists. */
  predicate WellFormedPayload(body: Option<ErrorBody>) {
    body.Some? && body.value.errors.Some? ==> NoEmptyLists(body.value.errors.value)
  }

  /**
   * `parseApiErrors`: the field errors of the payload, one message per field;
   * failing that the payload's non-empty message under `general`; failing
   * that the generic message under `general`.
   */
  function ParseApiErrors(error: FetchError): (r: map<string, string>)
    requires WellFormedPayload(ErrorPayload(error))
    ensures var body := ErrorPayload(error);
            body.Some? && body.value.errors.Some? ==>
              && r.Keys == body.value.errors.value.Keys
              && forall key :: key in r ==> r[key] == FirstMessage(body.value.errors.value[key])
    ensures var body := ErrorPayload(error);
            (body.None? || body.value.errors.None?) ==>
              r.Keys == {GeneralKey}
              && (if body.Some? && body.value.message.Some? && body.value.message.value != ""
                  then r[GeneralKey] == body.value.message.value
                  else r[GeneralKey] == GenericMessage)
  {
    var body := ErrorPayload(error);
    if body.Some? && body.value.errors.Some? then
      var errors := body.value.errors.value;
      map key | key in errors :: FirstMessage(errors[key])
    else if body.Some? && body.value.message.Some? && body.value.message.value != "" then
      map[GeneralKey := body.value.message.value]
    else
      map[GeneralKey := GenericMessage]
  }

  /** Every message reported is one the server sent, or the generic message. */
  lemma ParsedMessagesComeFromServer(error: FetchError)
    requires WellFormedPayload(ErrorPayload(error))
    ensures var body := ErrorPayload(error);
            forall key :: key in ParseApiErrors(error) ==>
              || ParseApiErrors(error)[key] == GenericMessage
              || (body.Some? && body.value.message == Some(ParseApiErrors(error)[key]))
              || (body.Some? && body.value.errors.Some? && key in body.value.errors.value &&
                  match body.value.errors.value[key]
                  case Message(text) => ParseApiErrors(error)[key] == text
                  case Messages(texts) => ParseApiErrors(error)[key] in texts)
  {
  }

  /** The result is empty only for a present but empty `errors` object. */
  lemma ParsedErrorsEmptyOnlyForEmptyObject(error: FetchError)
    requires WellFormedPayload(ErrorPayload(error))
    ensures ParseApiErrors(error) == map[] <==>
              ErrorPayload(error).Some? && ErrorPayload(error).value.errors == Some(map[])
  {
  }
}
