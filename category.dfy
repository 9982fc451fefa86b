/**
 * `categorize_complaint` (app/external.py:38-120): ask a language model for a
 * one-word category, normalise its answer and map it by fixed first-match
 * rules; when there is no key, the call fails, the answer cannot be normalised
 * or it maps to nothing, classify the text with an ordered keyword heuristic.
 */
module Category {
  import opened Wrappers
  import opened PyStr

  datatype Category = Technical | Payment | Other

  /** The wire form of a category (the enum of app/models.py:13-16). */
  function Label(c: Category): (r: string)
    ensures r in {"technical", "payment", "other"}
  {
    match c
    case Technical => "technical"
    case Payment => "payment"
    case Other => "other"
  }

  /**
   * How the chat-completion request ended. `Failed` is every exception raised
   * before the answer is read: the package is missing, the network or the quota
   * fails, the response has no first choice. `Reply` carries
   * `choices[0].message.content`, which the client library may give as `None`.
   */
  datatype LlmOutcome = Failed | Reply(content: Option<string>)

  // ---------------------------------------------------------------------------
  // Primary-answer stage
  // ---------------------------------------------------------------------------

  /** The characters `strip(".,")` removes from the ends of the first word. */
  const Punctuation: set<char> := {'.', ','}

  /**
   * `raw_answer.split()[0].strip(".,")` where `raw_answer` is
   * `content.strip().lower()`. `None` stands for the exception the source
   * raises and catches: `.strip()` on a `None` content, or `[0]` on a reply
   * that has no word at all. (The later `raw_answer is None` test therefore
   * never fires: by then `raw_answer` is a string.)
   */
  function NormaliseAnswer(content: Option<string>): (r: Option<string>)
    ensures r.None? <==> content.None? || forall i :: 0 <= i < |content.value| ==> IsSpace(content.value[i])
    ensures r.Some? ==> Occurs(r.value, Lower(content.value))
    ensures r.Some? ==> NoSpace(r.value) && IsLowerCase(r.value)
    ensures r.Some? ==> Trimmed(r.value, Punctuation)
  {
    match content
    case None => None
    case Some(c) =>
      var words := Split(Lower(Strip(c, Whitespace)));
      BlankReply(c);
      if words == [] then None
      else
        FirstWordFacts(c);
        Some(Strip(words[0], Punctuation))
  }

  /** A reply has no word exactly when it is all whitespace. */
  lemma BlankReply(c: string)
    ensures Split(Lower(Strip(c, Whitespace))) == [] <==> forall i :: 0 <= i < |c| ==> IsSpace(c[i])
  {
    var stripped := Strip(c, Whitespace);
    var raw := Lower(stripped);
    assert forall i :: 0 <= i < |raw| ==> raw[i] == LowerChar(stripped[i]);
    BlankAfterStrip(c, stripped, raw);
  }

  /** `raw`, a character-by-character image of `c.strip()` that keeps whitespace as whitespace, is blank exactly when `c` is. */
  lemma BlankAfterStrip(c: string, stripped: string, raw: string)
    requires stripped == [] <==> forall k :: 0 <= k < |c| ==> c[k] in Whitespace
    requires stripped == [] || stripped[0] !in Whitespace
    requires |raw| == |stripped|
    requires forall i :: 0 <= i < |raw| ==> (IsSpace(raw[i]) <==> IsSpace(stripped[i]))
    ensures (forall i :: 0 <= i < |raw| ==> IsSpace(raw[i])) <==> forall i :: 0 <= i < |c| ==> IsSpace(c[i])
  {
    assert (forall k :: 0 <= k < |c| ==> c[k] in Whitespace) <==> forall k :: 0 <= k < |c| ==> IsSpace(c[k]);
  }

  /** The normalised answer is a piece of the lowered reply, so it has no whitespace and no upper-case letter. */
  lemma FirstWordFacts(c: string)
    requires Split(Lower(Strip(c, Whitespace))) != []
    ensures var a := Strip(Split(Lower(Strip(c, Whitespace)))[0], Punctuation);
      Occurs(a, Lower(c)) && NoSpace(a) && IsLowerCase(a)
  {
    var stripped := Strip(c, Whitespace);
    var raw := Lower(stripped);
    var w := Split(raw)[0];
    var a := Strip(w, Punctuation);
    var i0 :| Surrounded(c, stripped, i0, Whitespace);
    assert MatchesAt(c, stripped, i0);
    OccursLower(stripped, c);
    SplitHead(raw);
    var k :| FirstRun(raw, w, k);
    assert MatchesAt(raw, w, k);
    var j :| Surrounded(w, a, j, Punctuation);
    assert MatchesAt(w, a, j);
    OccursTransitive(a, w, raw);
    OccursTransitive(a, raw, Lower(c));
    OccursChars(a, w);
    OccursChars(a, Lower(c));
  }

  /**
   * Conversely, the normalised answer is fixed by the reply: the first
   * whitespace-delimited run of the trimmed, lowered reply, with full stops and
   * commas gone from both of its ends, is what `NormaliseAnswer` returns.
   */
  lemma FirstWordAnswer(c: string, w: string, i: int, answer: string, j: int)
    requires w != [] && NoSpace(w) && FirstRun(Lower(Strip(c, Whitespace)), w, i)
    requires Surrounded(w, answer, j, Punctuation) && Trimmed(answer, Punctuation)
    ensures NormaliseAnswer(Some(c)) == Some(answer)
  {
    SplitFirstToken(Lower(Strip(c, Whitespace)), w, i);
    StripUnique(w, answer, j, Punctuation);
  }

  /**
   * The answer-to-category mapping, first match wins: a `тех` or `tech`
   * prefix is technical; otherwise an `оплат` prefix or exactly `payment` or
   * `pay` is payment; otherwise exactly `other` or `другое` is other; any
   * other answer is unmapped. The four outcomes are exclusive, so the order of
   * the tests decides only between the technical and the payment prefixes.
   */
  function MapAnswer(answer: string): (r: Option<Category>)
    ensures r == Some(Technical) <==> StartsWith(answer, "тех") || StartsWith(answer, "tech")
    ensures r == Some(Payment) <==>
      !StartsWith(answer, "тех") && !StartsWith(answer, "tech")
      && (StartsWith(answer, "оплат") || answer == "payment" || answer == "pay")
    ensures r == Some(Other) <==> answer == "other" || answer == "другое"
    ensures r.None? <==>
      !StartsWith(answer, "тех") && !StartsWith(answer, "tech") && !StartsWith(answer, "оплат")
      && answer !in {"payment", "pay", "other", "другое"}
  {
    OtherIsNoPrefix(answer);
    if StartsWith(answer, "тех") || StartsWith(answer, "tech") then Some(Technical)
    else if StartsWith(answer, "оплат") || answer in {"payment", "pay"} then Some(Payment)
    else if answer in {"other", "другое"} then Some(Other)
    else None
  }

  /** The two whole-word answers for "other" match none of the earlier tests. */
  lemma OtherIsNoPrefix(answer: string)
    ensures answer == "other" || answer == "другое" ==>
      !StartsWith(answer, "тех") && !StartsWith(answer, "tech") && !StartsWith(answer, "оплат")
      && answer != "payment" && answer != "pay"
  {
    if answer == "other" || answer == "другое" {
      NotStartsWith(answer, "тех", 0);
      NotStartsWith(answer, "tech", 0);
      NotStartsWith(answer, "оплат", 0);
    }
  }

  /** Round trip with the wire form: each category's own label maps back to it. */
  lemma LabelMapsBack(c: Category)
    ensures MapAnswer(Label(c)) == Some(c)
  {
    match c
    case Technical =>
      assert "technical" == "tech" + "nical";
    case Payment =>
      NotStartsWith("payment", "тех", 0);
      NotStartsWith("payment", "tech", 0);
    case Other =>
  }

  // ---------------------------------------------------------------------------
  // Keyword heuristic
  // ---------------------------------------------------------------------------

  const TechnicalKeywords: seq<string> :=
    ["ошибка", "error", "сайт", "server", "сервер", "не работает", "не открывается", "500", "503"]

  const PaymentKeywords: seq<string> :=
    ["деньги", "оплат", "payment", "pay", "charge", "списал", "списали", "дважды"]

  /**
   * Every technical keyword is non-empty and already lower-case, so each one
   * can match the lower-cased text it is compared with.
   */
  lemma TechnicalKeywordsLowerCase()
    ensures forall k :: k in TechnicalKeywords ==> k != [] && IsLowerCase(k)
  {
  }

  /** The same for the payment keywords. */
  lemma PaymentKeywordsLowerCase()
    ensures forall k :: k in PaymentKeywords ==> k != [] && IsLowerCase(k)
  {
  }

  /** Some keyword of the list is a substring of the lower-cased text. */
  ghost predicate Mentions(keywords: seq<string>, text: string)
  {
    exists k :: k in keywords && Occurs(k, Lower(text))
  }

  /**
   * The fallback of app/external.py:91-120: technical keywords are looked for
   * first, so a text with both kinds is technical; payment keywords next; the
   * default is other.
   */
  function Heuristic(text: string): (r: Category)
    ensures r == Technical <==> Mentions(TechnicalKeywords, text)
    ensures r == Payment <==> !Mentions(TechnicalKeywords, text) && Mentions(PaymentKeywords, text)
    ensures r == Other <==> !Mentions(TechnicalKeywords, text) && !Mentions(PaymentKeywords, text)
  {
    var lowered := Lower(text);
    AnyInIffOccurs(TechnicalKeywords, lowered);
    AnyInIffOccurs(PaymentKeywords, lowered);
    if AnyIn(TechnicalKeywords, lowered) then Technical
    else if AnyIn(PaymentKeywords, lowered) then Payment
    else Other
  }

  // ---------------------------------------------------------------------------
  // Composition
  // ---------------------------------------------------------------------------

  /**
   * `categorize_complaint(text)` with the OpenAI key and the outcome of the
   * chat-completion call as inputs. A mapped answer is returned as is; in every
   * other case (no key, failed call, no usable word, unmapped word) the result
   * is the heuristic's verdict on the original text.
   */
  function CategorizeComplaint(apiKey: Option<string>, outcome: LlmOutcome, text: string): (r: Category)
    ensures !Configured(apiKey) || outcome.Failed? ==> r == Heuristic(text)
    ensures outcome.Reply? && NormaliseAnswer(outcome.content).None? ==> r == Heuristic(text)
    ensures outcome.Reply? && NormaliseAnswer(outcome.content).Some? ==>
      r == (if Configured(apiKey) && MapAnswer(NormaliseAnswer(outcome.content).value).Some?
            then MapAnswer(NormaliseAnswer(outcome.content).value).value
            else Heuristic(text))
  {
    if !Configured(apiKey) then Heuristic(text)
    else
      match outcome
      case Failed => Heuristic(text)
      case Reply(content) =>
        match NormaliseAnswer(content)
        case None => Heuristic(text)
        case Some(answer) =>
          match MapAnswer(answer)
          case Some(c) => c
          case None => Heuristic(text)
  }
}
