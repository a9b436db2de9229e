/**
 * `get_provider`: the provider name, lower-cased, selects one of the three
 * supported providers; any other name is a `ValueError`.
 */
module Providers {
  import opened Wrappers
  import opened Strings

  datatype Provider = OpenAI | OpenRouter | Gemini

  /** The lower-cased name a provider is selected by. */
  function NameOf(p: Provider): string
  {
    match p
    case OpenAI => "openai"
    case OpenRouter => "openrouter"
    case Gemini => "gemini"
  }

  /** The message of the `ValueError` for an unsupported name, already lower-cased. */
  function UnknownProvider(lower: string): string
  {
    "Unknown provider: " + lower + ". Supported providers: openai, openrouter, gemini"
  }

  /**
   * `get_provider(provider_name)`: a provider exactly when the lower-cased
   * name is that provider's name; otherwise an error naming the
   * lower-cased input.
   */
  function GetProvider(name: string): (r: Result<Provider, string>)
    ensures forall p :: r == Ok(p) <==> AsciiLower(name) == NameOf(p)
    ensures r.Err? <==> AsciiLower(name) !in {"openai", "openrouter", "gemini"}
    ensures r.Err? ==> r.error == UnknownProvider(AsciiLower(name))
  {
    var lower := AsciiLower(name);
    if lower == "openai" then Ok(OpenAI)
    else if lower == "openrouter" then Ok(OpenRouter)
    else if lower == "gemini" then Ok(Gemini)
    else Err(UnknownProvider(lower))
  }

  /** Names that differ only in the case of ASCII letters select the same provider. */
  lemma GetProviderIgnoresCase(a: string, b: string)
    requires |a| == |b| && forall i :: 0 <= i < |a| ==> LowerChar(a[i]) == LowerChar(b[i])
    ensures GetProvider(a) == GetProvider(b)
  {
    assert AsciiLower(a) == AsciiLower(b);
  }

  /** Lower-casing the name first changes nothing: `lower` is idempotent. */
  lemma LowerFirst(name: string)
    ensures GetProvider(AsciiLower(name)) == GetProvider(name)
  {
    var l := AsciiLower(name);
    assert AsciiLower(l) == l by {
      forall i | 0 <= i < |l|
        ensures LowerChar(l[i]) == l[i]
      {
      }
    }
  }
}
