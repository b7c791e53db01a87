/**
 * The API-key form (src/components/ApiKeyInput.tsx): the key as typed, the
 * format check re-run on every change, and the submission of the trimmed
 * key.
 */
module ApiKeyInput {
  import opened Wrappers
  import opened Text

  /** The prefix every key of the analysis service starts with. */
  const KeyPrefix := "AIza"
  /** A key must be longer than this to look valid. */
  const MinKeyLength := 30

  /** `validateApiKey`'s format check, on the key exactly as typed. */
  predicate ValidFormat(key: string) {
    StartsWith(key, KeyPrefix) && |key| > MinKeyLength
  }

  /** The length bound is strict: with the prefix, 30 characters are too few and 31 enough. */
  lemma LengthBoundary(key: string)
    requires StartsWith(key, KeyPrefix)
    ensures |key| == 30 ==> !ValidFormat(key)
    ensures |key| == 31 ==> ValidFormat(key)
  {
  }

  /**
   * What `handleSubmit` passes on: the trimmed key, and nothing when only
   * whitespace was typed.
   */
  function Submitted(key: string): (r: Option<string>)
    ensures r.None? <==> AllTrimmable(key)
    ensures r.Some? ==> r.value != "" && !IsTrimmable(r.value[0]) && !IsTrimmable(r.value[|r.value| - 1])
    ensures r.Some? ==> exists i, j :: 0 <= i <= j <= |key| && r.value == key[i..j] && AllTrimmable(key[..i]) && AllTrimmable(key[j..])
  {
    var trimmed := Trim(key);
    if trimmed != "" then Some(trimmed) else None
  }

  /** A key of valid format is always passed on: it starts with a letter, so it is never all whitespace. */
  lemma ValidKeyIsSubmitted(key: string)
    requires ValidFormat(key)
    ensures Submitted(key).Some?
  {
    assert key[0] == KeyPrefix[0];
    assert !IsTrimmable(key[0]);
  }

  /**
   * The check counts surrounding whitespace: a 30-character key with a space
   * typed after it looks valid, yet the key passed on is the 30-character
   * one, which does not.
   */
  lemma TrailingSpaceCountsTowardLength(key: string)
    requires StartsWith(key, KeyPrefix) && |key| == 30 && !IsTrimmable(key[29])
    ensures ValidFormat(key + " ")
    ensures Submitted(key + " ") == Some(key)
    ensures !ValidFormat(key)
  {
    var s := key + " ";
    assert s[..4] == key[..4];
    assert s[0] == key[0] == 'A';
    assert LeadingTrimmable(s) == 0;
    assert s[..|s| - 1] == key;
    assert TrailingTrimmable(key) == 0;
    assert TrailingTrimmable(s) == 1;
    assert s[0..] == s;
  }

  /** The form's state; whether a validation is in progress belongs to the caller. */
  class ApiKeyForm {
    var apiKey: string
    var isValid: bool

    /** `isValid` always describes the key currently typed. */
    predicate Consistent()
      reads this
    {
      isValid == ValidFormat(apiKey)
    }

    constructor()
      ensures apiKey == "" && !isValid
      ensures Consistent()
    {
      apiKey := "";
      isValid := false;
    }

    /** `validateApiKey`: records and returns whether `key` has the format. */
    method ValidateApiKey(key: string) returns (valid: bool)
      modifies this
      ensures valid == ValidFormat(key) && isValid == valid
      ensures apiKey == old(apiKey)
    {
      valid := StartsWith(key, KeyPrefix) && |key| > MinKeyLength;
      isValid := valid;
    }

    /** `handleApiKeyChange`: the new value becomes the key and is validated as typed. */
    method ChangeApiKey(value: string)
      modifies this
      ensures apiKey == value && isValid == ValidFormat(value)
      ensures Consistent()
    {
      apiKey := value;
      var _ := ValidateApiKey(value);
    }

    /** `handleSubmit`: the key passed to the submit callback, if any. */
    method Submit() returns (sent: Option<string>)
      ensures sent == Submitted(apiKey)
    {
      var trimmed := Trim(apiKey);
      if trimmed != "" {
        sent := Some(trimmed);
      } else {
        sent := None;
      }
    }

    /** The submit button is disabled while the key looks invalid or a validation runs. */
    predicate SubmitDisabled(isValidating: bool)
      reads this
    {
      !isValid || isValidating
    }
  }

  /** Whenever the submit button is enabled, submitting passes a non-empty trimmed key on. */
  lemma EnabledSubmitSendsKey(form: ApiKeyForm, isValidating: bool)
    requires form.Consistent() && !form.SubmitDisabled(isValidating)
    ensures ValidFormat(form.apiKey) && !isValidating
    ensures Submitted(form.apiKey).Some?
  {
    ValidKeyIsSubmitted(form.apiKey);
  }
}
