/**
 * The classifier on concrete inputs: the three complaints of the smoke test
 * (tests/test_api.py:17-19) with no OpenAI key, and language-model replies that show
 * normalisation, the answer mapping and the fall-through to the heuristic.
 */
module Scenarios {
  import opened Wrappers
  import opened PyStr
  import opened Category

  /** No keyword of the list occurs in `s`. */
  ghost predicate NoneOccur(keywords: seq<string>, s: string)
  {
    forall k :: k in keywords ==> !Occurs(k, s)
  }

  // ---------------------------------------------------------------------------
  // The heuristic's three verdicts, with no key configured
  // ---------------------------------------------------------------------------

  lemma TechnicalByKeyword(apiKey: Option<string>, outcome: LlmOutcome, text: string, k: string)
    requires !Configured(apiKey) && k in TechnicalKeywords && Occurs(k, Lower(text))
    ensures CategorizeComplaint(apiKey, outcome, text) == Technical
  {
  }

  lemma PaymentByKeyword(apiKey: Option<string>, outcome: LlmOutcome, text: string, k: string)
    requires !Configured(apiKey) && NoneOccur(TechnicalKeywords, Lower(text))
    requires k in PaymentKeywords && Occurs(k, Lower(text))
    ensures CategorizeComplaint(apiKey, outcome, text) == Payment
  {
  }

  lemma OtherByAbsence(apiKey: Option<string>, outcome: LlmOutcome, text: string)
    requires !Configured(apiKey)
    requires NoneOccur(TechnicalKeywords, Lower(text)) && NoneOccur(PaymentKeywords, Lower(text))
    ensures CategorizeComplaint(apiKey, outcome, text) == Other
  {
  }

  // ---------------------------------------------------------------------------
  // "Сайт не открывается, ошибка 500"
  // ---------------------------------------------------------------------------

  /** "ошибка" is in the text, already lower-case, so the text is technical. */
  lemma SiteDownIsTechnical(apiKey: Option<string>, outcome: LlmOutcome, text: string)
    requires !Configured(apiKey) && text == "Сайт не открывается, ошибка 500"
    ensures CategorizeComplaint(apiKey, outcome, text) == Technical
  {
    assert MatchesAt(text, "ошибка", 21);
    OccursLowered("ошибка", text, 21);
    TechnicalByKeyword(apiKey, outcome, text, "ошибка");
  }

  // ---------------------------------------------------------------------------
  // "Деньги списали дважды"
  // ---------------------------------------------------------------------------

  /** The letters of the lowered text. */
  const DoubleChargeAlphabet: set<char> := {'д', 'е', 'н', 'ь', 'г', 'и', ' ', 'с', 'п', 'а', 'л', 'в', 'ж', 'ы'}

  lemma DoubleChargeText(text: string)
    requires text == "Деньги списали дважды"
    ensures forall i :: 0 <= i < |text| ==> text[i] in DoubleChargeAlphabet + {'Д'}
    ensures MatchesAt(text, "дважды", 15)
  {
  }

  /** Every technical keyword has a letter the lowered text lacks. */
  lemma NoTechnicalInDoubleCharge(s: string)
    requires forall i :: 0 <= i < |s| ==> s[i] in DoubleChargeAlphabet
    ensures NoneOccur(TechnicalKeywords, s)
  {
    var L := DoubleChargeAlphabet;
    AbsentLetter("ошибка", s, 0, L);
    AbsentLetter("error", s, 0, L);
    AbsentLetter("сайт", s, 2, L);
    AbsentLetter("server", s, 0, L);
    AbsentLetter("сервер", s, 2, L);
    AbsentLetter("не работает", s, 3, L);
    AbsentLetter("не открывается", s, 3, L);
    AbsentLetter("500", s, 0, L);
    AbsentLetter("503", s, 0, L);
  }

  /** No technical keyword, and the payment keyword "дважды" ends the text. */
  lemma DoubleChargeIsPayment(apiKey: Option<string>, outcome: LlmOutcome, text: string)
    requires !Configured(apiKey) && text == "Деньги списали дважды"
    ensures CategorizeComplaint(apiKey, outcome, text) == Payment
  {
    DoubleChargeText(text);
    DoubleChargeLowered(text);
    OccursLowered("дважды", text, 15);
    PaymentByKeyword(apiKey, outcome, text, "дважды");
  }

  /** The facts about the text, carried over to its lowered form. */
  lemma DoubleChargeLowered(text: string)
    requires forall i :: 0 <= i < |text| ==> text[i] in DoubleChargeAlphabet + {'Д'}
    ensures NoneOccur(TechnicalKeywords, Lower(text))
  {
    LowerLetters(text, DoubleChargeAlphabet + {'Д'}, DoubleChargeAlphabet);
    NoTechnicalInDoubleCharge(Lower(text));
  }

  // ---------------------------------------------------------------------------
  // "Спасибо, всё отлично"
  // ---------------------------------------------------------------------------

  /** The letters of the lowered text. */
  const ThanksAlphabet: set<char> := {'с', 'п', 'а', 'и', 'б', 'о', ',', ' ', 'в', 'ё', 'т', 'л', 'ч', 'н'}

  lemma ThanksLetters(text: string)
    requires text == "Спасибо, всё отлично"
    ensures forall i :: 0 <= i < |text| ==> text[i] in ThanksAlphabet + {'С'}
  {
  }

  /** No "о" is followed by "п" and no "п" by "и", once lowered. */
  lemma ThanksPairs(text: string)
    requires text == "Спасибо, всё отлично"
    ensures forall i :: 0 <= i < |text| - 1 ==> !(LowerChar(text[i]) == 'о' && LowerChar(text[i + 1]) == 'п')
    ensures forall i :: 0 <= i < |text| - 1 ==> !(LowerChar(text[i]) == 'п' && LowerChar(text[i + 1]) == 'и')
  {
  }

  /** Each technical keyword has a letter the lowered text lacks. */
  lemma NoTechnicalInThanks(s: string)
    requires forall i :: 0 <= i < |s| ==> s[i] in ThanksAlphabet
    ensures NoneOccur(TechnicalKeywords, s)
  {
    var L := ThanksAlphabet;
    AbsentLetter("ошибка", s, 1, L);
    AbsentLetter("error", s, 0, L);
    AbsentLetter("сайт", s, 2, L);
    AbsentLetter("server", s, 0, L);
    AbsentLetter("сервер", s, 1, L);
    AbsentLetter("не работает", s, 1, L);
    AbsentLetter("не открывается", s, 1, L);
    AbsentLetter("500", s, 0, L);
    AbsentLetter("503", s, 0, L);
  }

  /**
   * Each payment keyword has a letter the lowered text lacks, except "оплат",
   * whose "оп" never occurs there, and "списал" and "списали", whose "пи" never does.
   */
  lemma NoPaymentInThanks(s: string)
    requires forall i :: 0 <= i < |s| ==> s[i] in ThanksAlphabet
    requires forall i :: 0 <= i < |s| - 1 ==> !(s[i] == 'о' && s[i + 1] == 'п')
    requires forall i :: 0 <= i < |s| - 1 ==> !(s[i] == 'п' && s[i + 1] == 'и')
    ensures NoneOccur(PaymentKeywords, s)
  {
    var L := ThanksAlphabet;
    AbsentLetter("деньги", s, 0, L);
    AbsentPair("оплат", s, 0);
    AbsentLetter("payment", s, 0, L);
    AbsentLetter("pay", s, 0, L);
    AbsentLetter("charge", s, 0, L);
    AbsentPair("списал", s, 1);
    AbsentPair("списали", s, 1);
    AbsentLetter("дважды", s, 0, L);
  }

  /** The facts about the text, carried over to its lowered form. */
  lemma ThanksLowered(text: string)
    requires forall i :: 0 <= i < |text| ==> text[i] in ThanksAlphabet + {'С'}
    requires forall i :: 0 <= i < |text| - 1 ==> !(LowerChar(text[i]) == 'о' && LowerChar(text[i + 1]) == 'п')
    requires forall i :: 0 <= i < |text| - 1 ==> !(LowerChar(text[i]) == 'п' && LowerChar(text[i + 1]) == 'и')
    ensures NoneOccur(TechnicalKeywords, Lower(text)) && NoneOccur(PaymentKeywords, Lower(text))
  {
    LowerLetters(text, ThanksAlphabet + {'С'}, ThanksAlphabet);
    LowerNoPair(text, 'о', 'п');
    LowerNoPair(text, 'п', 'и');
    NoTechnicalInThanks(Lower(text));
    NoPaymentInThanks(Lower(text));
  }

  /** Neither list has a keyword in the text, so it is other. */
  lemma ThanksIsOther(apiKey: Option<string>, outcome: LlmOutcome, text: string)
    requires !Configured(apiKey) && text == "Спасибо, всё отлично"
    ensures CategorizeComplaint(apiKey, outcome, text) == Other
  {
    ThanksLetters(text);
    ThanksPairs(text);
    ThanksLowered(text);
    OtherByAbsence(apiKey, outcome, text);
  }

  // ---------------------------------------------------------------------------
  // Precedence
  // ---------------------------------------------------------------------------

  /**
   * Whenever the heuristic decides (no key, or a failed call), a text in which
   * both a technical and a payment keyword occur is technical.
   */
  lemma TechnicalBeforePayment(apiKey: Option<string>, outcome: LlmOutcome, text: string, kt: string, kp: string)
    requires !Configured(apiKey) || outcome.Failed?
    requires kt in TechnicalKeywords && Occurs(kt, Lower(text))
    requires kp in PaymentKeywords && Occurs(kp, Lower(text))
    ensures Mentions(PaymentKeywords, text)
    ensures CategorizeComplaint(apiKey, outcome, text) == Technical
  {
  }

  /** "payment error" holds the payment keyword `payment` and the technical keyword `error`, and is technical. */
  lemma PaymentErrorIsTechnical(apiKey: Option<string>, outcome: LlmOutcome, text: string)
    requires !Configured(apiKey) && text == "payment error"
    ensures Mentions(PaymentKeywords, text)
    ensures CategorizeComplaint(apiKey, outcome, text) == Technical
  {
    assert MatchesAt(text, "payment", 0) && MatchesAt(text, "error", 8);
    OccursLowered("payment", text, 0);
    OccursLowered("error", text, 8);
    assert "payment" in PaymentKeywords && "error" in TechnicalKeywords;
    TechnicalBeforePayment(apiKey, outcome, text, "error", "payment");
  }

  /**
   * A reply holding one word `w` between whitespace normalises to what is left
   * of `w`, lowered, once its surrounding full stops and commas are gone.
   */
  lemma OneWordReply(reply: string, i: int, w: string, answer: string, j: int)
    requires w != [] && NoSpace(w) && Surrounded(reply, w, i, Whitespace)
    requires Surrounded(Lower(w), answer, j, Punctuation)
    requires Trimmed(answer, Punctuation)
    ensures NormaliseAnswer(Some(reply)) == Some(answer)
  {
    StripUnique(reply, w, i, Whitespace);
    LowerNoSpace(w);
    WholeWordAnswer(reply, Lower(w), answer, j);
  }

  lemma WholeWordAnswer(reply: string, raw: string, answer: string, j: int)
    requires raw != [] && NoSpace(raw) && Lower(Strip(reply, Whitespace)) == raw
    requires Surrounded(raw, answer, j, Punctuation) && Trimmed(answer, Punctuation)
    ensures NormaliseAnswer(Some(reply)) == Some(answer)
  {
    assert MatchesAt(raw, raw, 0);
    FirstWordAnswer(reply, raw, 0, answer, j);
  }

  lemma MaybeIsBare()
    ensures NormaliseAnswer(Some("maybe")) == Some("maybe")
  {
    assert MatchesAt("maybe", "maybe", 0);
    assert Lower("maybe") == "maybe";
    OneWordReply("maybe", 0, "maybe", "maybe", 0);
  }

  /** The unmapped reply "maybe" is not read as other: the heuristic decides, here technical. */
  lemma UnmappedReplyFallsThrough(apiKey: Option<string>, text: string)
    requires Configured(apiKey) && text == "Сайт не открывается, ошибка 500"
    ensures CategorizeComplaint(apiKey, Reply(Some("maybe")), text) == Technical
  {
    MaybeIsBare();
    MaybeIsUnmapped("maybe");
    SiteDownIsTechnical(None, Failed, text);
  }

  lemma MaybeIsUnmapped(answer: string)
    requires answer == "maybe"
    ensures MapAnswer(answer).None?
  {
    NotStartsWith(answer, "тех", 0);
    NotStartsWith(answer, "tech", 0);
    NotStartsWith(answer, "оплат", 0);
  }

  /** The three words the prompt offers each map to their category. */
  lemma PromptWordsMap()
    ensures MapAnswer("техническая") == Some(Technical)
    ensures MapAnswer("оплата") == Some(Payment)
    ensures MapAnswer("другое") == Some(Other)
  {
    NotStartsWith("оплата", "тех", 0);
    NotStartsWith("оплата", "tech", 0);
    assert "оплата"[..5] == "оплат";
  }

  lemma VerboseReplyTrimmed(reply: string)
    requires reply == " Техническая.\n"
    ensures Surrounded(reply, "Техническая.", 1, Whitespace)
  {
    MatchesBetween(" ", "Техническая.", "\n");
    assert " " + "Техническая." + "\n" == reply;
  }

  lemma VerboseReplyOneWord()
    ensures NoSpace("Техническая.")
  {
  }

  lemma VerboseReplyLowered()
    ensures Surrounded(Lower("Техническая."), "техническая", 0, Punctuation)
  {
    assert Lower("Техническая.") == "техническая" + ".";
    MatchesBetween("", "техническая", ".");
    assert "" + "техническая" + "." == "техническая" + ".";
  }

  /** " Техническая.\n" normalises to "техническая": trimmed, lowered, its full stop dropped. */
  lemma VerboseReplyNormalised(reply: string)
    requires reply == " Техническая.\n"
    ensures NormaliseAnswer(Some(reply)) == Some("техническая")
  {
    VerboseReplyTrimmed(reply);
    VerboseReplyOneWord();
    VerboseReplyLowered();
    OneWordReply(reply, 1, "Техническая.", "техническая", 0);
  }

  /** A capitalised, punctuated reply still maps, whatever the text: the answer mapping is consulted before the heuristic. */
  lemma VerboseReplyMaps(apiKey: Option<string>, text: string)
    requires Configured(apiKey)
    ensures CategorizeComplaint(apiKey, Reply(Some(" Техническая.\n")), text) == Technical
  {
    VerboseReplyNormalised(" Техническая.\n");
    PromptWordsMap();
  }
}
