/**
 * What the translation route promises.  The general laws are stated about
 * `Translation.Route` for any candidate list, so they hold both for the route
 * as written (`Resolve`, which `Translate` computes) and for the route as
 * intended (`ResolveCorrected`, which `TranslateCorrected` computes); the
 * worked requests are about the route as written.
 */
module TranslationLaws {
  import opened Wrappers
  import opened Text
  import opened Entries
  import opened Lexicon
  import opened Translation

  /** An exact phrase wins: the stored value is returned, with no detection, provider or remote call. */
  lemma ExactMatchWins(dict: seq<(string, Phrasebook)>, req: Request, env: Oracles, planned: Option<seq<string>>, book: Phrasebook, v: string)
    requires req.text != [] && req.target != []
    requires Lookup(dict, req.target) == Some(book)
    requires Lookup(book, Normalize(req.text)) == Some(v) && v != []
    ensures Route(dict, req, env, planned) == Exchange(Translated(v, req.target, None, None), Trace([], None))
  {
  }

  /** The exact stage does not depend on the source, the `useAI` flag, the candidates or the services. */
  lemma ExactMatchIgnoresTheRest(dict: seq<(string, Phrasebook)>, req: Request, env: Oracles, planned: Option<seq<string>>,
                                 source: string, useAI: bool, env': Oracles, planned': Option<seq<string>>)
    requires req.text != [] && req.target != []
    requires Lookup(dict, req.target).Some?
    requires Lookup(Lookup(dict, req.target).value, Normalize(req.text)).Some?
    requires Lookup(Lookup(dict, req.target).value, Normalize(req.text)).value != []
    ensures Route(dict, req, env, planned) == Route(dict, req.(source := source, useAI := useAI), env', planned')
  {
    var book := Lookup(dict, req.target).value;
    var v := Lookup(book, Normalize(req.text)).value;
    ExactMatchWins(dict, req, env, planned, book, v);
    ExactMatchWins(dict, req.(source := source, useAI := useAI), env', planned', book, v);
  }

  /** Without an exact hit, the first phrase in enumeration order related to the text wins. */
  lemma PartialMatchFirst(dict: seq<(string, Phrasebook)>, req: Request, env: Oracles, planned: Option<seq<string>>, book: Phrasebook, k: nat)
    requires req.text != [] && req.target != []
    requires Lookup(dict, req.target) == Some(book)
    requires Lookup(book, Normalize(req.text)).None? || Lookup(book, Normalize(req.text)).value == []
    requires k < |book| && Related(Normalize(req.text), book[k].0)
    requires forall j :: 0 <= j < k ==> !Related(Normalize(req.text), book[j].0)
    ensures Route(dict, req, env, planned) == Exchange(Translated(book[k].1, req.target, None, None), Trace([], None))
  {
    FirstRelatedAt(book, Normalize(req.text), k);
  }

  /** Text that normalises to "" is related to every phrase, so the first phrase of the target wins. */
  lemma BlankTextMatchesFirstPhrase(dict: seq<(string, Phrasebook)>, req: Request, env: Oracles, planned: Option<seq<string>>, book: Phrasebook)
    requires req.text != [] && req.target != []
    requires forall i :: 0 <= i < |req.text| ==> IsJsSpace(req.text[i])
    requires Lookup(dict, req.target) == Some(book) && book != []
    requires forall i :: 0 <= i < |book| ==> book[i].0 != []
    ensures Route(dict, req, env, planned) == Exchange(Translated(book[0].1, req.target, None, None), Trace([], None))
  {
    assert Normalize(req.text) == [] by {
      LowerSpec(req.text);
      forall i | 0 <= i < |req.text|
        ensures IsJsSpace(Lower(req.text)[i])
      {
        LowerCharSpace(req.text[i]);
      }
      TrimSpec(Lower(req.text));
    }
    assert Includes(book[0].0, []) by {
      assert [] <= book[0].0[0..];
    }
    PartialMatchFirst(dict, req, env, planned, book, 0);
  }

  /** A target without a phrasebook (such as 'en') goes straight to the remote stages. */
  lemma NoPhrasebookSkipsDictionary(dict: seq<(string, Phrasebook)>, req: Request, env: Oracles, planned: Option<seq<string>>)
    requires req.text != [] && req.target != []
    requires Lookup(dict, req.target).None?
    ensures Route(dict, req, env, planned) == Remote(req, env, Normalize(req.text), planned)
  {
  }

  /**
   * A MyMemory answer comes from the first candidate, in the order of the
   * list, whose reply is accepted; exactly the candidates up to it were
   * queried, and the candidate is reported as the detected source.
   */
  lemma GatewayTakesFirstAccepted(dict: seq<(string, Phrasebook)>, req: Request, env: Oracles, planned: Option<seq<string>>)
    requires Route(dict, req, env, planned).response.Translated?
    requires Route(dict, req, env, planned).response.provider == Some(MyMemory)
    ensures planned.Some?
    ensures var candidates, x := planned.value, Route(dict, req, env, planned);
            exists k :: 0 <= k < |candidates|
              && x.trace == Trace(candidates[..k + 1], None)
              && x.response.detected == Some(candidates[k])
              && Accepts(env.memory(candidates[k]), Normalize(req.text))
              && x.response.translated == Trim(env.memory(candidates[k]).translatedText)
              && forall j :: 0 <= j < k ==> !Accepts(env.memory(candidates[j]), Normalize(req.text))
  {
    var candidates := planned.value;
    var k := FirstAccepted(candidates, env.memory, Normalize(req.text)).value;
    assert Route(dict, req, env, planned).trace == Trace(candidates[..k + 1], None);
  }

  /**
   * Conversely, when the dictionary has no answer and a candidate's reply is
   * accepted after only rejected ones, the route answers with that reply,
   * trimmed, naming the candidate as the detected source; exactly the
   * candidates up to it were queried, and OpenAI is not asked.
   */
  lemma AcceptedReplyWins(dict: seq<(string, Phrasebook)>, req: Request, env: Oracles, candidates: seq<string>, k: nat)
    requires req.text != [] && req.target != []
    requires LexiconHit(dict, req.target, Normalize(req.text)).None?
    requires k < |candidates| && Accepts(env.memory(candidates[k]), Normalize(req.text))
    requires forall j :: 0 <= j < k ==> !Accepts(env.memory(candidates[j]), Normalize(req.text))
    ensures Route(dict, req, env, Some(candidates))
            == Exchange(Translated(Trim(env.memory(candidates[k]).translatedText), req.target, Some(candidates[k]), Some(MyMemory)),
                        Trace(candidates[..k + 1], None))
  {
    var lowerText := Normalize(req.text);
    FirstAcceptedAt(candidates, env.memory, lowerText, k);
    assert Route(dict, req, env, Some(candidates)) == Remote(req, env, lowerText, Some(candidates));
  }

  /**
   * With an explicit source, that source is the only language the gateway is
   * asked about, and the route as written behaves exactly as intended.
   */
  lemma ExplicitSourceOnly(dict: seq<(string, Phrasebook)>, req: Request, env: Oracles)
    requires req.text != [] && req.target != [] && Explicit(req.source)
    ensures Resolve(dict, req, env).trace.queried <= [req.source]
    ensures Resolve(dict, req, env).response.provider == Some(MyMemory) ==> Resolve(dict, req, env).response.detected == Some(req.source)
    ensures Resolve(dict, req, env) == ResolveCorrected(dict, req, env)
  {
  }

  /** A service that only ever echoes the text back, in any letter case or padding, is never accepted. */
  lemma {:induction false} EchoIsNeverAccepted(dict: seq<(string, Phrasebook)>, req: Request, env: Oracles, planned: Option<seq<string>>)
    requires req.text != [] && req.target != []
    requires forall c :: env.memory(c).Reply? ==> Lower(Trim(env.memory(c).translatedText)) == Lower(Trim(req.text))
    ensures Route(dict, req, env, planned).response.provider != Some(MyMemory)
  {
    TrimLowerCommute(req.text);
    if planned.Some? {
      var candidates := planned.value;
      assert forall i :: 0 <= i < |candidates| ==> !Accepts(env.memory(candidates[i]), Normalize(req.text));
    }
  }

  /** Without `useAI`, or without a configured key, no prompt is sent and OpenAI never answers. */
  lemma NoPromptWithoutOptIn(dict: seq<(string, Phrasebook)>, req: Request, env: Oracles, planned: Option<seq<string>>)
    requires !req.useAI || !env.keyConfigured
    ensures Route(dict, req, env, planned).trace.prompt == None
    ensures Route(dict, req, env, planned).response.Translated? ==> Route(dict, req, env, planned).response.provider != Some(OpenAI)
  {
    if req.text == [] || req.target == [] {
    } else if LexiconHit(dict, req.target, Normalize(req.text)).Some? {
    } else if planned.Some? {
      var candidates := planned.value;
      var lowerText := Normalize(req.text);
      assert Route(dict, req, env, planned) == Remote(req, env, lowerText, planned);
      match FirstAccepted(candidates, env.memory, lowerText)
      case Some(k) =>
        assert Remote(req, env, lowerText, planned).response.provider == Some(MyMemory);
      case None =>
        assert Remote(req, env, lowerText, planned) == Generative(req, env, candidates);
        assert Generative(req, env, candidates) == Exchange(Passthrough(req), Trace(candidates, None));
    }
  }

  /**
   * When the dictionary and every candidate fail and OpenAI is asked for and
   * configured, a truthy answer is returned trimmed, with `source || 'auto'`
   * as the detected language.
   */
  lemma GenerativeAnswerUsed(dict: seq<(string, Phrasebook)>, req: Request, env: Oracles, candidates: seq<string>, answer: string)
    requires req.text != [] && req.target != [] && req.useAI && env.keyConfigured
    requires LexiconHit(dict, req.target, Normalize(req.text)).None?
    requires forall c :: c in candidates ==> !Accepts(env.memory(c), Normalize(req.text))
    requires env.ai(Prompt(req.text, req.source, req.target)) == AiAnswer(answer) && answer != []
    ensures Route(dict, req, env, Some(candidates)).response
            == Translated(Trim(answer), req.target, Some(DetectedSource(req.source)), Some(OpenAI))
    ensures Route(dict, req, env, Some(candidates)).trace == Trace(candidates, Some(Prompt(req.text, req.source, req.target)))
  {
  }

  /** An OpenAI answer of white space only is still accepted, and the route then answers with an empty translation. */
  lemma BlankAnswerGivesEmptyTranslation(dict: seq<(string, Phrasebook)>, req: Request, env: Oracles, candidates: seq<string>, answer: string)
    requires req.text != [] && req.target != [] && req.useAI && env.keyConfigured
    requires LexiconHit(dict, req.target, Normalize(req.text)).None?
    requires forall c :: c in candidates ==> !Accepts(env.memory(c), Normalize(req.text))
    requires env.ai(Prompt(req.text, req.source, req.target)) == AiAnswer(answer) && answer != []
    requires forall i :: 0 <= i < |answer| ==> IsJsSpace(answer[i])
    ensures Route(dict, req, env, Some(candidates)).response.translated == []
    ensures Route(dict, req, env, Some(candidates)).response.provider == Some(OpenAI)
  {
    TrimAllSpace(answer);
  }

  /**
   * When no stage succeeds, or building the candidate list throws, the
   * original text (not its normalised form) comes back for the target.
   */
  lemma PassthroughWhenAllFail(dict: seq<(string, Phrasebook)>, req: Request, env: Oracles, planned: Option<seq<string>>)
    requires req.text != [] && req.target != []
    requires LexiconHit(dict, req.target, Normalize(req.text)).None?
    requires planned.Some? ==> forall c :: c in planned.value ==> !Accepts(env.memory(c), Normalize(req.text))
    requires planned.Some? && req.useAI && env.keyConfigured ==>
               match env.ai(Prompt(req.text, req.source, req.target))
               case AiFailed => true
               case AiAnswer(a) => a == []
    ensures Route(dict, req, env, planned).response == Translated(req.text, req.target, None, None)
  {
  }

  // ---------------------------------------------------------------------
  // The candidate list as written

  /**
   * In auto mode with no script detected, the route as written queries no
   * candidate at all: after the dictionary it goes straight to the OpenAI
   * branch.
   */
  lemma UndetectedAutoSkipsGateway(dict: seq<(string, Phrasebook)>, req: Request, env: Oracles)
    requires req.text != [] && req.target != [] && !Explicit(req.source) && DetectScript(req.text).None?
    requires LexiconHit(dict, req.target, Normalize(req.text)).None?
    ensures Resolve(dict, req, env) == Generative(req, env, [])
  {
  }

  /**
   * In auto mode with a detected script, the route as written throws while
   * building the candidates; the outer `catch` returns the original text, and
   * neither service is called.
   */
  lemma DetectedScriptFallsToCatch(dict: seq<(string, Phrasebook)>, req: Request, env: Oracles)
    requires req.text != [] && req.target != [] && !Explicit(req.source) && DetectScript(req.text).Some?
    requires LexiconHit(dict, req.target, Normalize(req.text)).None?
    ensures Resolve(dict, req, env) == Exchange(Passthrough(req), Trace([], None))
  {
  }

  /**
   * The route as intended asks MyMemory first about the first planned
   * candidate whenever the dictionary has no answer.
   */
  lemma CorrectedAsksPlanFirst(dict: seq<(string, Phrasebook)>, req: Request, env: Oracles)
    requires req.text != [] && req.target != []
    requires LexiconHit(dict, req.target, Normalize(req.text)).None?
    ensures Plan(req.source, req.text)[..1] <= ResolveCorrected(dict, req, env).trace.queried
  {
    var plan := Plan(req.source, req.text);
    var x := Remote(req, env, Normalize(req.text), Some(plan));
    assert x.trace.queried != [] by {
      if FirstAccepted(plan, env.memory, Normalize(req.text)).None? {
        assert x.trace.queried == plan;
      }
    }
  }

  /** "good luck" into English in auto mode: as written, MyMemory is never asked. */
  lemma GoodLuckSkipsGateway(useAI: bool, env: Oracles)
    ensures Resolve(Dictionary, Request("good luck", "en", "auto", useAI), env).trace.queried == []
  {
  }

  /** "good luck" into English in auto mode: as intended, Telugu is asked first. */
  lemma GoodLuckAsksTeluguFirst(useAI: bool, env: Oracles)
    ensures ["te"] <= ResolveCorrected(Dictionary, Request("good luck", "en", "auto", useAI), env).trace.queried
  {
    EnglishHasNoBook();
    LatinUndetected("good luck");
    CorrectedAsksPlanFirst(Dictionary, Request("good luck", "en", "auto", useAI), env);
  }

  /**
   * Tamil text into English in auto mode: as written, the route throws right
   * after pushing 'ta' and passes the text through without calling either
   * service.
   */
  lemma TamilTextFallsToCatch(useAI: bool, env: Oracles)
    ensures Resolve(Dictionary, Request("வணக்கம்", "en", "auto", useAI), env)
            == Exchange(Translated("வணக்கம்", "en", None, None), Trace([], None))
  {
    EnglishHasNoBook();
    TamilTextTriesTamilFirst();
    DetectedScriptFallsToCatch(Dictionary, Request("வணக்கம்", "en", "auto", useAI), env);
  }

  /** Tamil text into English in auto mode: as intended, MyMemory is asked about Tamil first. */
  lemma TamilTextAsksTamilFirst(useAI: bool, env: Oracles)
    ensures ["ta"] <= ResolveCorrected(Dictionary, Request("வணக்கம்", "en", "auto", useAI), env).trace.queried
  {
    EnglishHasNoBook();
    TamilTextTriesTamilFirst();
    CorrectedAsksPlanFirst(Dictionary, Request("வணக்கம்", "en", "auto", useAI), env);
  }

  /** Tamil text in auto mode puts Tamil first among the intended gateway candidates. */
  lemma TamilTextTriesTamilFirst()
    ensures Plan("auto", "வணக்கம்")[0] == "ta"
  {
    TamilSecond("வணக்கம்", 0);
  }

  // ---------------------------------------------------------------------
  // Worked requests

  /** "thank you" asked for Hindi is the stored phrase, whatever the source, the flag or the services. */
  lemma ThankYouInHindi(source: string, useAI: bool, env: Oracles)
    ensures Resolve(Dictionary, Request("thank you", "hi", source, useAI), env)
            == Exchange(Translated("धन्यवाद", "hi", None, None), Trace([], None))
  {
    ThankYouNormal();
    HindiBook();
    HindiThanks();
    ExactMatchWins(Dictionary, Request("thank you", "hi", source, useAI), env, PlanAsWritten(source, "thank you"), Hindi, "धन्यवाद");
  }

  lemma ThankYouNormal()
    ensures Normalize("thank you") == "thank you"
  {
    NormalText("thank you");
  }

  /** Lower-case text that neither starts nor ends with white space is already normal. */
  lemma NormalText(s: string)
    requires forall i :: 0 <= i < |s| ==> !('A' <= s[i] <= 'Z')
    requires s == [] || (!IsJsSpace(s[0]) && !IsJsSpace(s[|s| - 1]))
    ensures Normalize(s) == s
  {
    LowerKeepsLowerCase(s);
    TrimSpec(s);
  }

  lemma HindiThanks()
    ensures Lookup(Hindi, "thank you") == Some("धन्यवाद")
  {
    LookupFirst(Hindi, 5);
  }

  /** Text of blanks only asked for Hindi gets the first Hindi phrase, the greeting. */
  lemma BlankTextInHindi(source: string, useAI: bool, env: Oracles)
    ensures Resolve(Dictionary, Request("   ", "hi", source, useAI), env)
            == Exchange(Translated("नमस्ते", "hi", None, None), Trace([], None))
  {
    HindiBook();
    BlankTextMatchesFirstPhrase(Dictionary, Request("   ", "hi", source, useAI), env, PlanAsWritten(source, "   "), Hindi);
  }

  /** Longer than nine characters, containing "no", and free of the letters h, g, b, t, e and k. */
  predicate NoShaped(lowerText: string)
  {
    && |lowerText| > 9 && Includes(lowerText, "no")
    && 'h' !in lowerText && 'g' !in lowerText && 'b' !in lowerText
    && 't' !in lowerText && 'e' !in lowerText && 'k' !in lowerText
  }

  /**
   * The partial stage answers "না" ("no") in Bengali for any text whose
   * normal form is longer than nine characters, contains "no", lacks the
   * letters h, g, b, t, e and k, and is not itself a Bengali phrase.
   */
  lemma NoWinsInBengali(req: Request, env: Oracles)
    requires req.text != [] && req.target == "bn"
    requires NoShaped(Normalize(req.text))
    requires Lookup(Bengali, Normalize(req.text)).None?
    ensures Resolve(Dictionary, req, env) == Exchange(Translated("না", "bn", None, None), Trace([], None))
  {
    BengaliBook();
    BengaliOpening();
    NoWins(Dictionary, req, env, PlanAsWritten(req.source, req.text), Bengali);
  }

  /** `NoWinsInBengali` for any table whose entry for the target opens like the Bengali phrases. */
  lemma NoWins(dict: seq<(string, Phrasebook)>, req: Request, env: Oracles, planned: Option<seq<string>>, book: Phrasebook)
    requires req.text != [] && req.target != [] && Lookup(dict, req.target) == Some(book)
    requires |book| > 10
    requires book[0].0 == "hello" && book[1].0 == "hi" && book[2].0 == "hey"
    requires book[3].0 == "goodbye" && book[4].0 == "bye" && book[5].0 == "thank you"
    requires book[6].0 == "thanks" && book[7].0 == "yes" && book[8].0 == "ok"
    requires book[9].0 == "okay" && book[10].0 == "no"
    requires NoShaped(Normalize(req.text))
    requires Lookup(book, Normalize(req.text)).None?
    ensures Route(dict, req, env, planned) == Exchange(Translated(book[10].1, req.target, None, None), Trace([], None))
  {
    NoIsFirstRelated(book, Normalize(req.text));
    PartialMatchFirst(dict, req, env, planned, book, 10);
  }

  /**
   * "xyzzy nonword" is such a text, so asked for Bengali it is not passed
   * through but answered "না" without calling any service: the phrase "no"
   * occurs inside "nonword".
   */
  lemma NonwordIsAnsweredNo(req: Request, env: Oracles)
    requires req.text == "xyzzy nonword" && req.target == "bn"
    ensures Resolve(Dictionary, req, env) == Exchange(Translated("না", "bn", None, None), Trace([], None))
  {
    NonwordMeetsConditions();
    NoWinsInBengali(req, env);
  }

  lemma NonwordMeetsConditions()
    ensures Normalize("xyzzy nonword") == "xyzzy nonword"
    ensures NoShaped("xyzzy nonword") && Lookup(Bengali, "xyzzy nonword").None?
  {
    NormalText("xyzzy nonword");
    NonwordHasNo();
    NonwordLacks();
    NonwordNotAPhrase();
  }

  lemma NonwordHasNo()
    ensures Includes("xyzzy nonword", "no")
  {
    assert "no" <= "xyzzy nonword"[6..];
  }

  lemma NonwordLacks()
    ensures 'h' !in "xyzzy nonword" && 'g' !in "xyzzy nonword" && 'b' !in "xyzzy nonword"
    ensures 't' !in "xyzzy nonword" && 'e' !in "xyzzy nonword" && 'k' !in "xyzzy nonword"
  {
  }

  lemma NonwordNotAPhrase()
    ensures Lookup(Bengali, "xyzzy nonword").None?
  {
    assert forall j :: 0 <= j < |Bengali| ==> Bengali[j].0 != "xyzzy nonword";
  }

  // ---------------------------------------------------------------------
  // The phrase table

  /** `dictionary['hi']` is the Hindi phrase list. */
  lemma HindiBook()
    ensures Lookup(Dictionary, "hi") == Some(Hindi)
  {
    LookupFirst(Dictionary, 0);
  }

  /** `dictionary['ta']` is the Tamil phrase list. */
  lemma TamilBook()
    ensures Lookup(Dictionary, "ta") == Some(Tamil)
  {
    LookupFirst(Dictionary, 1);
  }

  /** `dictionary['te']` is the Telugu phrase list. */
  lemma TeluguBook()
    ensures Lookup(Dictionary, "te") == Some(Telugu)
  {
    LookupFirst(Dictionary, 2);
  }

  /** `dictionary['bn']` is the Bengali phrase list. */
  lemma BengaliBook()
    ensures Lookup(Dictionary, "bn") == Some(Bengali)
  {
    LookupFirst(Dictionary, 3);
  }

  /** The table has phrases for hi, ta, te and bn only; English, in particular, has none. */
  lemma EnglishHasNoBook()
    ensures Lookup(Dictionary, "en").None?
    ensures forall t :: t != "hi" && t != "ta" && t != "te" && t != "bn" ==> Lookup(Dictionary, t).None?
  {
  }

  /** A shorter phrase holding a letter the text lacks is unrelated to the text. */
  lemma UnrelatedByLetter(text: string, key: string, c: char)
    requires |key| < |text| && c in key && c !in text
    ensures !Related(text, key)
  {
    LongerNotIncluded(key, text);
    ForeignCharNotIncluded(text, key, c);
  }

  lemma BengaliOpening()
    ensures |Bengali| > 10
    ensures Bengali[0].0 == "hello" && Bengali[1].0 == "hi" && Bengali[2].0 == "hey"
    ensures Bengali[3].0 == "goodbye" && Bengali[4].0 == "bye" && Bengali[5].0 == "thank you"
    ensures Bengali[6].0 == "thanks" && Bengali[7].0 == "yes" && Bengali[8].0 == "ok"
    ensures Bengali[9].0 == "okay" && Bengali[10] == ("no", "না")
  {
  }

  /**
   * In a phrase list that opens like the Bengali one, any text longer than
   * nine characters that contains "no" but none of the letters h, g, b, t, e,
   * k settles on the phrase "no": each of the ten phrases before it is
   * shorter than the text and has one of those letters.
   */
  lemma NoIsFirstRelated(book: Phrasebook, lowerText: string)
    requires |book| > 10
    requires book[0].0 == "hello" && book[1].0 == "hi" && book[2].0 == "hey"
    requires book[3].0 == "goodbye" && book[4].0 == "bye" && book[5].0 == "thank you"
    requires book[6].0 == "thanks" && book[7].0 == "yes" && book[8].0 == "ok"
    requires book[9].0 == "okay" && book[10].0 == "no"
    requires NoShaped(lowerText)
    ensures FirstRelated(book, lowerText) == Some(10)
  {
    UnrelatedByLetter(lowerText, "hello", 'h');
    UnrelatedByLetter(lowerText, "hi", 'h');
    UnrelatedByLetter(lowerText, "hey", 'h');
    UnrelatedByLetter(lowerText, "goodbye", 'g');
    UnrelatedByLetter(lowerText, "bye", 'b');
    UnrelatedByLetter(lowerText, "thank you", 't');
    UnrelatedByLetter(lowerText, "thanks", 't');
    UnrelatedByLetter(lowerText, "yes", 'e');
    UnrelatedByLetter(lowerText, "ok", 'k');
    UnrelatedByLetter(lowerText, "okay", 'k');
    forall j | 0 <= j < 10
      ensures !Related(lowerText, book[j].0)
    {
      if j == 0 {} else if j == 1 {} else if j == 2 {} else if j == 3 {} else if j == 4 {}
      else if j == 5 {} else if j == 6 {} else if j == 7 {} else if j == 8 {} else {}
    }
    FirstRelatedAt(book, lowerText, 10);
  }

  /** Tamil text with one Devanagari word is detected as Hindi, the first block in the table. */
  lemma MixedScriptsDetectHindi()
    ensures DetectScript("வணக்கம் नमस्ते") == Some("hi")
  {
    DevanagariFirst("வணக்கம் नमस्ते", 8);
  }
}
