# complaints_processor: the enrichment classifiers

A model of the two classifiers in `app/external.py` that enrich every
complaint before it is stored:

- `analyze_sentiment` asks a sentiment provider for a label. It falls back
  to `unknown` when no key is configured, the request fails, or the
  provider's label is not one of `positive`, `negative` and `neutral`.
- `categorize_complaint` asks a language model for a one-word category. It
  normalises the reply (trim, lower-case, first whitespace token, full stops
  and commas stripped from both ends). Then it maps the result by ordered
  first-match rules. When there is no key, the call fails, the reply has no
  word or the word maps to nothing, it classifies the original text with an
  ordered keyword heuristic. Technical keywords are tried before payment
  keywords, and `other` is the default.

The network exchanges are inputs: `Sentiment.ProviderOutcome` and
`Category.LlmOutcome` say how the request ended. API keys are
`Option<string>` values, tested with Python truthiness (`Wrappers.Configured`).
Everything else is the string processing the source performs.

The Python `str` operations the classifiers use are modelled in module
`PyStr`:
- `isspace` covers exactly the 29 characters Python treats as whitespace.
- `lower` is modelled on ASCII, Latin-1 and the basic Cyrillic capitals.
- Also modelled: `strip`, `split`, `startswith`, the substring test `in`
  and `any`.

The substring test and `any` are left-to-right scans. Each is proved equal
to a reference definition (`Occurs`: some index where the piece sits).

Modules:
- `wrappers.dfy`: `Option`, and key presence.
- `pystr.dfy`: the string operations and their lemmas.
- `sentiment.dfy`: `analyze_sentiment`.
- `category.dfy`: `categorize_complaint`.
- `scenarios.dfy`: concrete inputs. These include the three smoke-test
  complaints of `tests/test_api.py`, the precedence of technical over
  payment keywords, and language-model replies.

## Model

| member | source | states |
|---|---|---|
| Wrappers.Configured | app/external.py:18 | Python truthiness of a key read with `os.getenv`: present and non-empty (`if not APILAYER_API_KEY`, `if OPENAI_API_KEY` at line 40) |
| Sentiment.Label | app/external.py:16 | every sentiment result is one of the four labels `positive`, `negative`, `neutral`, `unknown` |
| Sentiment.FromProvider | app/external.py:30-33 | the provider's `sentiment` member is kept exactly when it is one of the three real labels, and then returned verbatim; a missing member or any other value is `unknown` |
| Sentiment.AnalyzeSentiment | app/external.py:16-35 | no key gives `unknown` whatever the outcome; any failure gives `unknown`; a label other than `unknown` comes only from a configured key and a body whose member is exactly that label's text |
| Sentiment.FromProviderLabel | app/external.py:30-33 | round trip: reading back the wire form of any label gives that label (`unknown` included, because it is not a provider label) |
| Category.Label | app/models.py:13-16 | every category result is one of `technical`, `payment`, `other` |
| Category.NormaliseAnswer | app/external.py:61-67 | the answer is absent exactly when the content is `None` or all whitespace (the two cases where the source raises); otherwise it occurs in the lowered reply, holds no whitespace and no upper-case letter, and neither starts nor ends with `.` or `,` |
| Category.BlankReply | app/external.py:61-67 | `content.strip().lower().split()` is empty exactly when the reply is all whitespace, which is when `[0]` raises |
| Category.FirstWordFacts | app/external.py:61-67 | the stripped first token is a piece of the lowered reply, without whitespace or upper-case letters |
| Category.FirstWordAnswer | app/external.py:61-67 | conversely, the first whitespace-delimited run of the trimmed, lowered reply, with `.`/`,` gone from both its ends, is the normalised answer, so the answer is fully determined |
| Category.MapAnswer | app/external.py:70-75 | first match wins: prefix `тех` or `tech` gives technical; otherwise prefix `оплат` or exactly `payment`/`pay` gives payment; otherwise exactly `other`/`другое` gives other; every other answer is unmapped; the four outcomes are exclusive |
| Category.OtherIsNoPrefix | app/external.py:70-75 | the whole-word answers for "other" pass none of the earlier tests, so their rank in the order does not matter |
| Category.LabelMapsBack | app/external.py:70-75 | round trip with the wire form: each category's own label maps back to that category |
| Category.TechnicalKeywordsLowerCase | app/external.py:93-103 | the technical keyword list (`ошибка`, `error`, `сайт`, `server`, `сервер`, `не работает`, `не открывается`, `500`, `503`, in that order) holds only non-empty lower-case keywords, so each can match the lowered text |
| Category.PaymentKeywordsLowerCase | app/external.py:104-113 | the payment keyword list (`деньги`, `оплат`, `payment`, `pay`, `charge`, `списал`, `списали`, `дважды`, in that order) holds only non-empty lower-case keywords |
| Category.Heuristic | app/external.py:91-120 | technical exactly when some technical keyword is a substring of the lowered text, even if a payment keyword occurs too; payment exactly when no technical but some payment keyword is; other exactly when neither list matches |
| Category.CategorizeComplaint | app/external.py:36-120 | with no key or a failed call the result is the heuristic's; a reply with no usable word falls to the heuristic; a normalised word is returned mapped when it maps, and otherwise the heuristic decides (never a direct `other`) |
| PyStr.IsSpace | app/external.py:61-67 | `str.isspace`, the whitespace test of `strip()` and `split()`: the 29 characters `\t`–`\r`, U+001C–U+001F, space, U+0085, U+00A0, U+1680, U+2000–U+200A, U+2028, U+2029, U+202F, U+205F, U+3000 |
| PyStr.LowerChar | app/external.py:61 | lower-casing one character leaves no modelled capital, keeps every other character, and keeps whitespace whitespace |
| PyStr.Lower | app/external.py:91 | `lower()` keeps the length and every non-capital in place, and leaves no modelled capital |
| PyStr.LowerNoSpace | app/external.py:61 | lowering a word without whitespace gives a word without whitespace |
| PyStr.LowerKeeps | app/external.py:91 | a lower-case string is its own `lower()` |
| PyStr.OccursLower | app/external.py:91 | a piece of `s` occurs, lowered, in `s.lower()` |
| PyStr.OccursLowered | app/external.py:115-117 | a lower-case piece of the text is a piece of the lowered text |
| PyStr.LowerLetters | app/external.py:91 | if `lower()` maps the alphabet of `s` into a set, the lowered text's characters all lie in that set |
| PyStr.LowerNoPair | app/external.py:91 | two neighbouring characters that never lower to `c` then `d` leave no `c` followed by `d` in the lowered text |
| PyStr.StartsWith | app/external.py:70-72 | `s.startswith(p)`: `p` is no longer than `s` and equals its first `len(p)` characters |
| PyStr.NotStartsWith | app/external.py:70-72 | a string differing from the prefix at one position does not start with it |
| PyStr.Contains | app/external.py:115-117 | `k in s` as a left-to-right scan: `s` starts with `k`, or `s[1:]` contains it; `ContainsIffOccurs` gives its meaning |
| PyStr.ContainsIffOccurs | app/external.py:115-117 | the left-to-right scan for `k in s` succeeds exactly when `k` sits at some index of `s` |
| PyStr.AnyIn | app/external.py:115-117 | `any(k in s for k in keywords)` as a left-to-right scan of the list; `AnyInIffOccurs` gives its meaning |
| PyStr.AnyInIffOccurs | app/external.py:115-117 | `any(k in s for k in keywords)` holds exactly when some keyword occurs in `s` |
| PyStr.OccursTransitive | app/external.py:61-67 | a piece of a piece is a piece |
| PyStr.OccursChars | app/external.py:61-67 | every character of a piece is a character of the whole |
| PyStr.AbsentLetter | app/external.py:115-117 | a keyword with a character outside the text's alphabet does not occur in it |
| PyStr.AbsentPair | app/external.py:115-117 | a keyword with two neighbours that are never neighbours in the text does not occur in it |
| PyStr.TrimLeft | app/external.py:61 | `lstrip` returns a suffix, drops only characters of the set, and stops at one outside it |
| PyStr.TrimRight | app/external.py:61 | `rstrip` returns a prefix, drops only characters of the set, and stops at one outside it |
| PyStr.Strip | app/external.py:61 | `strip(cs)` leaves a piece with only `cs` characters around it and none at its ends, empty exactly when every character is in `cs` |
| PyStr.TrimBoth | app/external.py:61 | the composition of `lstrip` and `rstrip` leaves the kept piece surrounded only by stripped characters |
| PyStr.StripUnique | app/external.py:61 | `strip` is determined by its contract: any piece surrounded by `cs` characters and without them at its ends is the stripped string |
| PyStr.Word | app/external.py:67 | the leading run of a string is a prefix without whitespace that ends at whitespace or at the end |
| PyStr.Split | app/external.py:67 | `split()` yields non-empty tokens without whitespace, and none exactly when the string is all whitespace |
| PyStr.SplitHead | app/external.py:67 | the first token of `split()` follows only whitespace and ends at whitespace or at the end |
| PyStr.FirstRunUnique | app/external.py:67 | there is only one such first run |
| PyStr.SplitFirstToken | app/external.py:67 | conversely, a non-empty whitespace-free run that starts the string that way is `split()[0]` |
| PyStr.SplitKeepsNonSpace | app/external.py:67 | `split()` loses only whitespace: its tokens joined are the non-whitespace characters in order |
| Scenarios.SiteDownIsTechnical | tests/test_api.py:17 | with no key, "Сайт не открывается, ошибка 500" is technical |
| Scenarios.DoubleChargeIsPayment | tests/test_api.py:18 | with no key, "Деньги списали дважды" is payment: no technical keyword occurs, "дважды" does |
| Scenarios.ThanksIsOther | tests/test_api.py:19 | with no key, "Спасибо, всё отлично" is other: no keyword of either list occurs |
| Scenarios.TechnicalBeforePayment | app/external.py:115-118 | whenever the heuristic decides (no key or a failed call), every text in which both a technical and a payment keyword occur, lowered, is technical |
| Scenarios.PaymentErrorIsTechnical | app/external.py:115-118 | the text "payment error" holds the payment keyword `payment` and the technical keyword `error`, and with no key it is technical |
| Scenarios.UnmappedReplyFallsThrough | app/external.py:77-86 | an unmapped reply ("maybe") is not read as other; the heuristic decides, here technical |
| Scenarios.PromptWordsMap | app/external.py:70-75 | the three words the prompt offers (`техническая`, `оплата`, `другое`) map to their categories |
| Scenarios.VerboseReplyNormalised | app/external.py:61-67 | the reply " Техническая.\n" normalises to `техническая` |
| Scenarios.VerboseReplyMaps | app/external.py:61-75 | a capitalised, punctuated reply still maps, whatever the text, so the heuristic is not consulted |

## Left out

- The HTTP exchanges: the httpx and OpenAI clients, the timeout, `async`/`await` and the `openai.api_key` assignment. Their results are the `ProviderOutcome` and `LlmOutcome` inputs.
- JSON decoding of the sentiment body: `ProviderOutcome.Body` carries the `sentiment` member as `Option<string>`. A member that is not a string is folded into `None`. Neither can be one of the three labels, so both give `unknown`.
- Reading `.env` and the environment: keys are parameters.
- The prompt text and the request parameters (`gpt-3.5-turbo`, temperature 0, `max_tokens=1`). They shape the reply, which the model takes as an input.
- The `print` logging. It has no effect on the result.
- The check of `raw_answer is None` at app/external.py:63 never fires. `.strip()` at line 61 already raises on a `None` content, and the `except` catches that. `NormaliseAnswer` models the raise as `None`, and no separate branch exists.
- app/main.py (routing), app/crud.py (queries and persistence, including the order in which a new complaint is stored and classified), app/database.py, app/schemas.py and the ORM part of app/models.py. These are framework plumbing with no classification logic.
- PyStr.Lower: Unicode case mapping outside ASCII, Latin-1 and U+0400–U+042F is not modelled. Characters outside that range are kept as they are.
- Both classifiers are pure functions of their inputs. Idempotence and independence of the two calls therefore hold by construction and are not stated separately.
