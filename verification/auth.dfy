/** API-key validation (core/auth.py) over the configured key list
    (core/config.py). */
module Auth {
  import opened Base

  /** The configured key list: a single entry holding the value of the
      `TARA_API_KEY` environment variable, which is `None` when unset. */
  function ApiKeys(taraApiKey: Option<string>): (keys: seq<Option<string>>)
    ensures |keys| == 1 && keys[0] == taraApiKey
  {
    [taraApiKey]
  }

  /** Membership of a presented key in the configured list, scanned the way
      Python's `in` scans a list. A presented key is a string, so it never
      equals an unset (`None`) entry. */
  function ValidateApiKey(apiKey: string, apiKeys: seq<Option<string>>): (valid: bool)
    ensures valid <==> exists i :: 0 <= i < |apiKeys| && apiKeys[i] == Some(apiKey)
  {
    if |apiKeys| == 0 then false
    else if apiKeys[0] == Some(apiKey) then true
    else
      var rest := ValidateApiKey(apiKey, apiKeys[1..]);
      assert forall i :: 1 <= i < |apiKeys| ==> apiKeys[i] == apiKeys[1..][i - 1];
      rest
  }

  /** With the deployed configuration exactly one key is accepted: the value
      of `TARA_API_KEY`. */
  lemma OnlyConfiguredKeyAccepted(apiKey: string, taraApiKey: Option<string>)
    ensures ValidateApiKey(apiKey, ApiKeys(taraApiKey)) <==> taraApiKey == Some(apiKey)
  {
  }

  /** When `TARA_API_KEY` is unset the list is `[None]` and no key passes. */
  lemma UnsetKeyRejectsAll(apiKey: string)
    ensures !ValidateApiKey(apiKey, ApiKeys(None))
  {
  }
}
