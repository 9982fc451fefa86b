/**
 * `analyze_sentiment` (app/external.py:16-35): ask the sentiment provider
 * for a label and fall back to `unknown` whenever that is not possible.
 * The HTTP exchange is an input: what the provider answered, or that the
 * exchange failed.
 */
module Sentiment {
  import opened Wrappers

  datatype Sentiment = Positive | Negative | Neutral | Unknown

  /** The wire form of a label, as stored with the complaint and returned by the API. */
  function Label(s: Sentiment): (r: string)
    ensures r in {"positive", "negative", "neutral", "unknown"}
  {
    match s
    case Positive => "positive"
    case Negative => "negative"
    case Neutral => "neutral"
    case Unknown => "unknown"
  }

  /** The labels the provider may legitimately return (app/external.py:31). */
  const ProviderLabels: set<string> := {"positive", "negative", "neutral"}

  /**
   * How the request to the provider ended. `Failed` is every exception the
   * `try` catches: transport error or timeout, non-success status, a body that
   * is not JSON or not a JSON object. `Body` is a decoded object; its
   * `sentiment` member is `None` when the member is missing or is not a string
   * (no such value is one of the three labels, and an unhashable one makes
   * the set test raise, which is caught as well).
   */
  datatype ProviderOutcome = Failed | Body(sentiment: Option<string>)

  /** The `sentiment` member of the body turned into a label: kept when it is a real label, `unknown` otherwise. */
  function FromProvider(field: Option<string>): (r: Sentiment)
    ensures r != Unknown <==> field.Some? && field.value in ProviderLabels
    ensures r != Unknown ==> Label(r) == field.value
  {
    match field
    case Some("positive") => Positive
    case Some("negative") => Negative
    case Some("neutral") => Neutral
    case _ => Unknown
  }

  /**
   * `analyze_sentiment(text)` with the API key and the provider's outcome as
   * inputs. Without a key no request is built and the outcome is never looked at.
   */
  function AnalyzeSentiment(apiKey: Option<string>, outcome: ProviderOutcome): (r: Sentiment)
    ensures !Configured(apiKey) ==> r == Unknown
    ensures outcome.Failed? ==> r == Unknown
    ensures r != Unknown <==> Configured(apiKey) && outcome.Body? && outcome.sentiment.Some?
                              && outcome.sentiment.value in ProviderLabels
    ensures r != Unknown ==> outcome == Body(Some(Label(r)))
  {
    if !Configured(apiKey) then Unknown
    else
      match outcome
      case Failed => Unknown
      case Body(field) => FromProvider(field)
  }

  /** Reading back the wire form of any label gives that label; for `unknown` this holds because "unknown" is not a provider label. */
  lemma FromProviderLabel(s: Sentiment)
    ensures FromProvider(Some(Label(s))) == s
  {
  }
}
