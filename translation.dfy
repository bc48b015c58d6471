/**
 * The `/api/translate/translate` route (server/index.js:31-203): a fixed
 * cascade of exact dictionary lookup, partial dictionary lookup, the MyMemory
 * gateway tried per candidate source language, an optional OpenAI fallback,
 * and finally the original text.
 *
 * The two network services are oracles given with the request: `memory`
 * answers the MyMemory query for one candidate source language (the text and
 * the target are those of the request), `ai` answers one prompt.  The route
 * then becomes a function of the request, the oracles and the candidate list
 * it reaches the gateway with (`Route`).  As written, lines 144-146 never
 * append the fallback languages and throw when a script is detected
 * (`PlanAsWritten`); `Resolve` is the route as written, which the method
 * `Translate` implements, and `ResolveCorrected` the route with the intended
 * candidate list (`Plan`), which `TranslateCorrected` implements with the
 * source's push loop.
 */
module Translation {
  import opened Wrappers
  import opened Text
  import opened Entries
  import opened Lexicon

  /** The request body; a missing field reads as "" and a missing `useAI` as false (both are falsy). */
  datatype Request = Request(text: string, target: string, source: string, useAI: bool)

  /**
   * What one MyMemory query produced: no usable HTTP answer at all (the fetch
   * or the JSON parse threw), or the HTTP `ok` flag, `data.responseStatus` and
   * `data.responseData.translatedText` ("" when that path is absent).
   */
  datatype MemoryReply = NoReply | Reply(ok: bool, responseStatus: int, translatedText: string)

  /** What `aiProvider.handleQuery` produced: it threw, or it returned an object whose `answer` is given ("" when absent). */
  datatype AiReply = AiFailed | AiAnswer(answer: string)

  /** The world outside the route: the two services and whether `OPENAI_API_KEY` is set. */
  datatype Oracles = Oracles(memory: string -> MemoryReply, keyConfigured: bool, ai: string -> AiReply)

  datatype Provider = MyMemory | OpenAI

  /** The JSON the route sends: a 400 error, or `{translated, language, detected?, provider?}`. */
  datatype Response =
    | BadRequest(error: string)
    | Translated(translated: string, language: string, detected: Option<string>, provider: Option<Provider>)

  /** The remote calls a request made: the MyMemory source codes queried, in order, and the OpenAI prompt if one was sent. */
  datatype Trace = Trace(queried: seq<string>, prompt: Option<string>)

  datatype Exchange = Exchange(response: Response, trace: Trace)

  const MissingInput := "Missing text or target language"

  /** `text.toLowerCase().trim()`, the form the dictionary is searched with. */
  function Normalize(text: string): string
  {
    Trim(Lower(text))
  }

  /** Normalising normal text changes nothing: the dictionary keys are searched with a fixed point. */
  lemma NormalizeIdempotent(text: string)
    ensures Normalize(Normalize(text)) == Normalize(text)
  {
    TrimLowerCommute(Trim(Lower(text)));
    TrimIdempotent(Lower(text));
    TrimLowerCommute(text);
    LowerIdempotent(Trim(text));
  }

  // ---------------------------------------------------------------------
  // Dictionary stages

  /** The partial-match test: either string includes the other. */
  predicate Related(lowerText: string, key: string)
  {
    Includes(lowerText, key) || Includes(key, lowerText)
  }

  /** The partial-match test is symmetric, and every text is related to itself. */
  lemma RelatedSymmetric(a: string, b: string)
    ensures Related(a, b) <==> Related(b, a)
    ensures Related(a, a)
  {
    assert a <= a[0..];
  }

  /** The position of the first phrase, in enumeration order, related to `lowerText`. */
  function FirstRelated(book: Phrasebook, lowerText: string): (r: Option<nat>)
    ensures r.None? <==> forall i :: 0 <= i < |book| ==> !Related(lowerText, book[i].0)
    ensures r.Some? ==> r.value < |book| && Related(lowerText, book[r.value].0)
    ensures r.Some? ==> forall j :: 0 <= j < r.value ==> !Related(lowerText, book[j].0)
  {
    if book == [] then None
    else if Related(lowerText, book[0].0) then Some(0)
    else match FirstRelated(book[1..], lowerText)
      case None => None
      case Some(k) => Some(k + 1)
  }

  /** The first related key is at `k` when the key at `k` is related and none before it is. */
  lemma FirstRelatedAt(book: Phrasebook, lowerText: string, k: nat)
    requires k < |book| && Related(lowerText, book[k].0)
    requires forall j :: 0 <= j < k ==> !Related(lowerText, book[j].0)
    ensures FirstRelated(book, lowerText) == Some(k)
  {
    var r := FirstRelated(book, lowerText);
    assert r.Some?;
    assert !(r.value < k) && !(r.value > k);
  }

  /** The `for...in` loop of the partial stage, returning the value of the first related key. */
  method PartialMatch(book: Phrasebook, lowerText: string) returns (r: Option<string>)
    ensures r.Some? <==> FirstRelated(book, lowerText).Some?
    ensures r.Some? ==> r.value == book[FirstRelated(book, lowerText).value].1
  {
    for i := 0 to |book|
      invariant forall j :: 0 <= j < i ==> !Related(lowerText, book[j].0)
    {
      var key := book[i].0;
      if Includes(lowerText, key) || Includes(key, lowerText) {
        return Some(book[i].1);
      }
    }
    return None;
  }

  /**
   * The two dictionary stages together: when `dictionary[target]` exists,
   * its truthy entry under `lowerText`, else the value of its first related key.
   */
  function LexiconHit(dict: seq<(string, Phrasebook)>, target: string, lowerText: string): Option<string>
  {
    match Lookup(dict, target)
    case None => None
    case Some(book) =>
      var exact := Lookup(book, lowerText);
      if exact.Some? && exact.value != [] then exact
      else match FirstRelated(book, lowerText)
        case None => None
        case Some(k) => Some(book[k].1)
  }

  /**
   * A dictionary answer is the stored translation of a phrase of the target's
   * book that is the text itself or related to it; without a book for the
   * target there is no dictionary answer.
   */
  lemma LexiconHitIsStored(dict: seq<(string, Phrasebook)>, target: string, lowerText: string)
    ensures Lookup(dict, target).None? ==> LexiconHit(dict, target, lowerText).None?
    ensures LexiconHit(dict, target, lowerText).Some? ==>
              exists i :: 0 <= i < |Lookup(dict, target).value| && Stored(Lookup(dict, target).value, i, lowerText, LexiconHit(dict, target, lowerText).value)
  {
    if LexiconHit(dict, target, lowerText).Some? {
      var book := Lookup(dict, target).value;
      var v := LexiconHit(dict, target, lowerText).value;
      var exact := Lookup(book, lowerText);
      if exact.Some? && exact.value != [] {
        var i :| 0 <= i < |book| && book[i] == (lowerText, exact.value);
        assert Stored(book, i, lowerText, v);
      } else {
        var k := FirstRelated(book, lowerText).value;
        assert Stored(book, k, lowerText, v);
      }
    }
  }

  /** Phrase `i` of `book` is the text itself or related to it, and `v` is its translation. */
  predicate Stored(book: Phrasebook, i: nat, lowerText: string, v: string)
    requires i < |book|
  {
    book[i].1 == v && (book[i].0 == lowerText || Related(lowerText, book[i].0))
  }

  // ---------------------------------------------------------------------
  // Script detection and the candidate plan

  /** A Unicode block and the language code `detectScript` answers for it. */
  datatype Script = Script(code: string, low: char, high: char)

  /** The four blocks `detectScript` tests, in the order it tests them. */
  const Scripts := [
    Script("hi", '\U{0900}', '\U{097F}'),   // Devanagari
    Script("ta", '\U{0B80}', '\U{0BFF}'),   // Tamil
    Script("te", '\U{0C00}', '\U{0C7F}'),   // Telugu
    Script("bn", '\U{0980}', '\U{09FF}')    // Bengali
  ]

  /** The regular-expression test: some character of `s` lies in the block. */
  predicate Uses(s: string, script: Script)
  {
    exists i :: 0 <= i < |s| && script.low <= s[i] <= script.high
  }

  /** The code of the first script in `scripts` that `s` uses. */
  function FirstScript(s: string, scripts: seq<Script>): (r: Option<string>)
    ensures r.None? <==> forall k :: 0 <= k < |scripts| ==> !Uses(s, scripts[k])
    ensures r.Some? ==> exists k :: 0 <= k < |scripts| && r.value == scripts[k].code && Uses(s, scripts[k])
                                    && forall j :: 0 <= j < k ==> !Uses(s, scripts[j])
  {
    if scripts == [] then None
    else if Uses(s, scripts[0]) then
      Some(scripts[0].code)
    else
      var r := FirstScript(s, scripts[1..]);
      assert r.Some? ==> exists k :: 0 <= k < |scripts| && r.value == scripts[k].code && Uses(s, scripts[k])
                                     && forall j :: 0 <= j < k ==> !Uses(s, scripts[j]) by {
        if r.Some? {
          var k :| 0 <= k < |scripts[1..]| && r.value == scripts[1..][k].code && Uses(s, scripts[1..][k])
                   && forall j :: 0 <= j < k ==> !Uses(s, scripts[1..][j]);
          assert forall j :: 0 <= j < k + 1 ==> !Uses(s, scripts[j]) by {
            forall j | 0 <= j < k + 1 ensures !Uses(s, scripts[j]) {
              if j > 0 { assert scripts[j] == scripts[1..][j - 1]; }
            }
          }
        }
      }
      r
  }

  /** `detectScript(text)`: the code of the first block in `Scripts` that the text uses, if any. */
  function DetectScript(s: string): (r: Option<string>)
    ensures r.Some? ==> r.value in ["hi", "ta", "te", "bn"]
    ensures r.None? <==> forall k :: 0 <= k < |Scripts| ==> !Uses(s, Scripts[k])
  {
    FirstScript(s, Scripts)
  }

  /** Text with any Devanagari character is detected as Hindi, whatever other scripts it mixes in. */
  lemma DevanagariFirst(s: string, i: nat)
    requires i < |s| && '\U{0900}' <= s[i] <= '\U{097F}'
    ensures DetectScript(s) == Some("hi")
  {
    assert Uses(s, Scripts[0]);
  }

  /** Text using the Tamil block but not the Devanagari one is detected as Tamil. */
  lemma TamilSecond(s: string, i: nat)
    requires i < |s| && '\U{0B80}' <= s[i] <= '\U{0BFF}'
    requires !Uses(s, Scripts[0])
    ensures DetectScript(s) == Some("ta")
  {
    assert Uses(s, Scripts[1]);
  }

  /** Text outside all four blocks (Latin text, say) is not detected. */
  lemma LatinUndetected(s: string)
    requires forall i :: 0 <= i < |s| ==> s[i] < '\U{0900}'
    ensures DetectScript(s) == None
  {
  }

  /** The fallback source languages, in the order they are appended. */
  const Fallbacks := ["te", "hi", "ta", "bn", "en"]

  predicate Distinct(s: seq<string>)
  {
    forall i, j :: 0 <= i < j < |s| ==> s[i] != s[j]
  }

  /** A source given explicitly: truthy and not 'auto'. */
  predicate Explicit(source: string)
  {
    source != [] && source != "auto"
  }

  /** `s` with every occurrence of `x` removed, order kept. */
  function Without(s: seq<string>, x: string): (r: seq<string>)
    ensures forall y :: y in r <==> y in s && y != x
  {
    if s == [] then [] else (if s[0] == x then [] else [s[0]]) + Without(s[1..], x)
  }

  /** Appending one more element to `s` appends it to `Without(s, x)` unless it is `x`. */
  lemma {:induction false} WithoutSnoc(s: seq<string>, y: string, x: string)
    ensures Without(s + [y], x) == Without(s, x) + (if y == x then [] else [y])
  {
    if s != [] {
      assert (s + [y])[1..] == s[1..] + [y];
      WithoutSnoc(s[1..], y, x);
    }
  }

  /** Removing an element that is not there changes nothing. */
  lemma {:induction false} WithoutAbsent(s: seq<string>, x: string)
    requires x !in s
    ensures Without(s, x) == s
  {
    if s != [] {
      WithoutAbsent(s[1..], x);
    }
  }

  /** Removing an element keeps a list free of repeats and shortens it by one exactly when the element was there. */
  lemma {:induction false} WithoutDistinct(s: seq<string>, x: string)
    requires Distinct(s)
    ensures Distinct(Without(s, x))
    ensures |Without(s, x)| == if x in s then |s| - 1 else |s|
  {
    if s != [] {
      assert Distinct(s[1..]);
      WithoutDistinct(s[1..], x);
      assert s[0] !in s[1..];
      assert x in s <==> x == s[0] || x in s[1..];
    }
  }

  /** Moving an element of a repeat-free list to its front keeps every element once and the length. */
  lemma MoveToFront(s: seq<string>, d: string)
    requires Distinct(s) && d in s
    ensures |[d] + Without(s, d)| == |s| && Distinct([d] + Without(s, d))
  {
    WithoutDistinct(s, d);
    var w := Without(s, d);
    assert d !in w;
    assert forall i :: 0 < i < |[d] + w| ==> ([d] + w)[i] == w[i - 1];
  }

  /** The fallback list has no repeats and no empty code. */
  lemma FallbacksDistinct()
    ensures Distinct(Fallbacks) && "" !in Fallbacks
  {
  }

  /**
   * The candidate source languages the route is evidently meant to try:
   * exactly the explicit source, or else the detected language first and then
   * the fallbacks it does not repeat.
   */
  function Plan(source: string, text: string): (r: seq<string>)
    ensures Explicit(source) ==> r == [source]
    ensures !Explicit(source) ==> |r| == 5 && Distinct(r) && forall c :: c in r <==> c in Fallbacks
    ensures !Explicit(source) && DetectScript(text).Some? ==> r[0] == DetectScript(text).value
    ensures !Explicit(source) && DetectScript(text).None? ==> r == Fallbacks
  {
    if Explicit(source) then [source]
    else match DetectScript(text)
      case None => Fallbacks
      case Some(d) =>
        FallbacksDistinct();
        MoveToFront(Fallbacks, d);
        [d] + Without(Fallbacks, d)
  }

  /**
   * The candidate list as lines 130-147 build it, or None when building it
   * throws.  Line 144 ends without a semicolon and line 146 opens with `[`,
   * so the two lines form one statement: the bracket indexes the result of
   * `candidates.push(probable)`.  Inside the bracket the comma operator
   * leaves 'en', `push` returns the new length 1, and `(1)['en']` is
   * `undefined`.  Without a detected script the whole `if` is skipped and no
   * fallback is added; with one, calling `forEach` on `undefined` throws a
   * TypeError.
   */
  function PlanAsWritten(source: string, text: string): Option<seq<string>>
  {
    if Explicit(source) then Some([source])
    else if DetectScript(text).Some? then None
    else Some([])
  }

  /**
   * The list as written agrees with the intended one exactly when the source
   * is explicit; whenever it is built at all, it is a prefix of the intended
   * one, so the fallbacks are never tried.
   */
  lemma PlanAsWrittenAgreesOnlyWhenExplicit(source: string, text: string)
    ensures PlanAsWritten(source, text) == Some(Plan(source, text)) <==> Explicit(source)
    ensures PlanAsWritten(source, text).Some? ==> PlanAsWritten(source, text).value <= Plan(source, text)
    ensures PlanAsWritten(source, text).Some? ==> forall c :: c in PlanAsWritten(source, text).value ==> c !in Fallbacks || c == source
  {
  }

  /** One turn of the fallback loop: appending `Fallbacks[i]` unless present extends the planned prefix by one. */
  lemma FallbackStep(head: seq<string>, skip: string, i: nat)
    requires i < |Fallbacks|
    requires (head == [] && skip == "") || (head == [skip] && skip in Fallbacks)
    ensures var before := head + Without(Fallbacks[..i], skip);
            head + Without(Fallbacks[..i + 1], skip)
            == if Fallbacks[i] in before then before else before + [Fallbacks[i]]
  {
    var l := Fallbacks[i];
    assert l !in Fallbacks[..i] && l != "" by {
      assert Distinct(Fallbacks);
    }
    assert Fallbacks[..i + 1] == Fallbacks[..i] + [l];
    WithoutSnoc(Fallbacks[..i], l, skip);
  }

  /** The `candidates` array: built by `push`, the fallbacks appended by a loop that skips codes already present. */
  method PlanCandidates(source: string, text: string) returns (candidates: seq<string>)
    ensures candidates == Plan(source, text)
  {
    if Explicit(source) {
      return [source];
    }
    var probable := DetectScript(text);
    candidates := if probable.Some? then [probable.value] else [];
    ghost var head, skip := candidates, if probable.Some? then probable.value else "";
    assert probable.Some? ==> skip in Fallbacks;
    for i := 0 to |Fallbacks|
      invariant candidates == head + Without(Fallbacks[..i], skip)
    {
      var l := Fallbacks[i];
      FallbackStep(head, skip, i);
      if l !in candidates {
        candidates := candidates + [l];
      }
    }
    assert Fallbacks[..|Fallbacks|] == Fallbacks;
    FallbacksDistinct();
    WithoutAbsent(Fallbacks, "");
  }

  // ---------------------------------------------------------------------
  // The MyMemory gateway

  /** The acceptance rule: an `ok` reply, status 200, and a trimmed translation that is non-empty and not the input again. */
  predicate Accepts(reply: MemoryReply, lowerText: string)
  {
    && reply.Reply?
    && reply.ok
    && reply.responseStatus == 200
    && Trim(reply.translatedText) != []
    && Lower(Trim(reply.translatedText)) != lowerText
  }

  /** An accepted reply is never the text again once both are normalised: an echo in another case or padding is refused. */
  lemma AcceptedIsNotAnEcho(reply: MemoryReply, text: string)
    requires Accepts(reply, Normalize(text))
    ensures Normalize(reply.translatedText) != Normalize(text)
    ensures Normalize(reply.translatedText) != []
  {
    TrimLowerCommute(reply.translatedText);
    LowerSpec(Trim(reply.translatedText));
  }

  /** The position of the first candidate whose reply is accepted. */
  function FirstAccepted(candidates: seq<string>, memory: string -> MemoryReply, lowerText: string): (r: Option<nat>)
    ensures r.None? <==> forall i :: 0 <= i < |candidates| ==> !Accepts(memory(candidates[i]), lowerText)
    ensures r.Some? ==> r.value < |candidates| && Accepts(memory(candidates[r.value]), lowerText)
    ensures r.Some? ==> forall j :: 0 <= j < r.value ==> !Accepts(memory(candidates[j]), lowerText)
  {
    if candidates == [] then None
    else if Accepts(memory(candidates[0]), lowerText) then Some(0)
    else
      var rest := candidates[1..];
      assert forall i :: 0 < i < |candidates| ==> candidates[i] == rest[i - 1];
      match FirstAccepted(rest, memory, lowerText)
      case None => None
      case Some(k) => Some(k + 1)
  }

  /** A reply accepted after only rejected ones is the one the gateway settles on. */
  lemma FirstAcceptedAt(candidates: seq<string>, memory: string -> MemoryReply, lowerText: string, i: nat)
    requires i < |candidates| && Accepts(memory(candidates[i]), lowerText)
    requires forall j :: 0 <= j < i ==> !Accepts(memory(candidates[j]), lowerText)
    ensures FirstAccepted(candidates, memory, lowerText) == Some(i)
  {
    var r := FirstAccepted(candidates, memory, lowerText);
    assert r.Some?;
    assert !(r.value < i);
    assert !(r.value > i);
  }

  // ---------------------------------------------------------------------
  // The OpenAI fallback

  const TranslateFrom := "Translate the following text from language code "
  const ToCode := " to language code "
  const DetectAndTranslate := "Detect the source language and translate the following text into language code "
  const Instruction := ". Respond with only the translated text.\n\nText: \""

  /** The request's text in double quotes, as the prompt ends. */
  function Quoted(text: string): string
  {
    text + "\""
  }

  /** The instruction sent to the model: it names the explicit source, or asks the model to detect it. */
  function Prompt(text: string, source: string, target: string): string
  {
    if Explicit(source) then
      (TranslateFrom + source + ToCode) + (target + Instruction) + Quoted(text)
    else
      DetectAndTranslate + (target + Instruction) + Quoted(text)
  }

  /**
   * The prompt opens with the phrase naming the source when the source is
   * explicit and with the detection request otherwise, goes on to name the
   * target code, and ends with the request's text in quotes.
   */
  lemma PromptShape(text: string, source: string, target: string)
    ensures Explicit(source) ==> (TranslateFrom + source + ToCode) + (target + Instruction) <= Prompt(text, source, target)
    ensures !Explicit(source) ==> DetectAndTranslate + (target + Instruction) <= Prompt(text, source, target)
    ensures var p := Prompt(text, source, target);
            |p| > |text| && p[|p| - |text| - 1..] == text + "\""
  {
    var opening := if Explicit(source) then TranslateFrom + source + ToCode else DetectAndTranslate;
    Framed(opening, target + Instruction, Quoted(text));
  }

  /** A string framed by `a` in front and `c` behind starts with `a` and `a + b` and ends with `c`. */
  lemma Framed(a: string, b: string, c: string)
    ensures a <= a + b <= a + b + c
    ensures |a + b + c| >= |c| && (a + b + c)[|a + b + c| - |c|..] == c
  {
    assert a + b + c == a + (b + c);
  }

  /** `source || 'auto'`. */
  function DetectedSource(source: string): string
  {
    if source != [] then source else "auto"
  }

  /** The response when every stage has failed, and that of the outer `catch`: the original text, not its normalised form. */
  function Passthrough(req: Request): Response
  {
    Translated(req.text, req.target, None, None)
  }

  /** The stages after the gateway: the OpenAI fallback when asked for and configured, then passthrough. */
  function Generative(req: Request, env: Oracles, queried: seq<string>): (x: Exchange)
    ensures x.trace.queried == queried
    ensures x.trace.prompt.Some? <==> req.useAI && env.keyConfigured
    ensures x.response.Translated? && x.response.language == req.target
    ensures x.response.provider != Some(MyMemory)
  {
    if req.useAI && env.keyConfigured then
      var prompt := Prompt(req.text, req.source, req.target);
      var reply := env.ai(prompt);
      if reply.AiAnswer? && reply.answer != [] then
        Exchange(Translated(Trim(reply.answer), req.target, Some(DetectedSource(req.source)), Some(OpenAI)),
                 Trace(queried, Some(prompt)))
      else
        Exchange(Passthrough(req), Trace(queried, Some(prompt)))
    else
      Exchange(Passthrough(req), Trace(queried, None))
  }

  // ---------------------------------------------------------------------
  // The route

  /**
   * The stages that call out, given the candidate list the handler built:
   * the gateway over it, then `Generative`.  None stands for a list whose
   * building threw; the outer `catch` then answers with the original text.
   */
  function Remote(req: Request, env: Oracles, lowerText: string, planned: Option<seq<string>>): (x: Exchange)
    ensures x.response.Translated? && x.response.language == req.target
    ensures planned.Some? ==> x.trace.queried <= planned.value
    ensures planned.None? ==> x == Exchange(Passthrough(req), Trace([], None))
    ensures x.response.provider == Some(MyMemory) ==>
              x.trace.queried != [] && x.response.detected == Some(x.trace.queried[|x.trace.queried| - 1])
    ensures planned.Some? && (exists i :: 0 <= i < |planned.value| && Accepts(env.memory(planned.value[i]), lowerText)) ==>
              x.response.provider == Some(MyMemory)
  {
    match planned
    case None => Exchange(Passthrough(req), Trace([], None))
    case Some(candidates) =>
      match FirstAccepted(candidates, env.memory, lowerText)
      case Some(k) =>
        Exchange(Translated(Trim(env.memory(candidates[k]).translatedText), req.target, Some(candidates[k]), Some(MyMemory)),
                 Trace(candidates[..k + 1], None))
      case None => Generative(req, env, candidates)
  }

  /**
   * The route as a function of the phrase table, the request, the oracles
   * and the candidate list it reaches the gateway with.
   */
  function Route(dict: seq<(string, Phrasebook)>, req: Request, env: Oracles, planned: Option<seq<string>>): (x: Exchange)
    ensures x.response.BadRequest? <==> req.text == [] || req.target == []
    ensures x.response.BadRequest? ==> x == Exchange(BadRequest(MissingInput), Trace([], None))
    ensures x.response.Translated? ==> x.response.language == req.target
  {
    if req.text == [] || req.target == [] then
      Exchange(BadRequest(MissingInput), Trace([], None))
    else
      match LexiconHit(dict, req.target, Normalize(req.text))
      case Some(v) => Exchange(Translated(v, req.target, None, None), Trace([], None))
      case None => Remote(req, env, Normalize(req.text), planned)
  }

  /** The route as written: in auto mode it never asks MyMemory anything. */
  function Resolve(dict: seq<(string, Phrasebook)>, req: Request, env: Oracles): (x: Exchange)
    ensures !Explicit(req.source) ==> x.trace.queried == []
    ensures x.response.Translated? && x.response.provider == Some(MyMemory) ==> Explicit(req.source)
  {
    Route(dict, req, env, PlanAsWritten(req.source, req.text))
  }

  /** The route as evidently intended: it asks MyMemory about a prefix of the planned candidates. */
  function ResolveCorrected(dict: seq<(string, Phrasebook)>, req: Request, env: Oracles): (x: Exchange)
    ensures x.trace.queried <= Plan(req.source, req.text)
  {
    Route(dict, req, env, Some(Plan(req.source, req.text)))
  }

  /** The two dictionary stages with the partial stage's `for...in` loop. */
  method DictionaryStages(target: string, lowerText: string) returns (hit: Option<string>)
    ensures hit == LexiconHit(Dictionary, target, lowerText)
  {
    var book := Lookup(Dictionary, target);
    if book.Some? {
      var exact := Lookup(book.value, lowerText);
      if exact.Some? && exact.value != [] {
        return exact;
      }
      hit := PartialMatch(book.value, lowerText);
      return hit;
    }
    return None;
  }

  /** The route's handler as written: validation, the dictionary stages, then the remote stages or the outer `catch`. */
  method Translate(req: Request, env: Oracles) returns (resp: Response, trace: Trace)
    ensures Exchange(resp, trace) == Resolve(Dictionary, req, env)
  {
    if req.text == [] || req.target == [] {
      return BadRequest(MissingInput), Trace([], None);
    }
    var lowerText := Trim(Lower(req.text));
    var hit := DictionaryStages(req.target, lowerText);
    if hit.Some? {
      return Translated(hit.value, req.target, None, None), Trace([], None);
    }
    var planned := PlanAsWritten(req.source, req.text);
    if planned.None? {
      // the TypeError of line 146, caught at lines 199-201
      return Passthrough(req), Trace([], None);
    }
    resp, trace := CallServices(req, env, lowerText, planned.value);
  }

  /** The handler with the candidate list built as intended, by the push loop of `PlanCandidates`. */
  method TranslateCorrected(req: Request, env: Oracles) returns (resp: Response, trace: Trace)
    ensures Exchange(resp, trace) == ResolveCorrected(Dictionary, req, env)
  {
    if req.text == [] || req.target == [] {
      return BadRequest(MissingInput), Trace([], None);
    }
    var lowerText := Trim(Lower(req.text));
    var hit := DictionaryStages(req.target, lowerText);
    if hit.Some? {
      return Translated(hit.value, req.target, None, None), Trace([], None);
    }
    var candidates := PlanCandidates(req.source, req.text);
    resp, trace := CallServices(req, env, lowerText, candidates);
  }

  /** Extending a prefix by the next element gives the next prefix. */
  lemma PrefixStep(s: seq<string>, i: nat)
    requires i < |s|
    ensures s[..i] + [s[i]] == s[..i + 1]
  {
  }

  lemma PrefixWhole(s: seq<string>)
    ensures s[..|s|] == s
  {
  }

  /** The MyMemory loop: the candidates are asked one at a time until a reply is accepted. */
  method QueryGateway(candidates: seq<string>, memory: string -> MemoryReply, lowerText: string)
    returns (hit: Option<nat>, queried: seq<string>)
    ensures hit == FirstAccepted(candidates, memory, lowerText)
    ensures hit.Some? ==> queried == candidates[..hit.value + 1]
    ensures hit.None? ==> queried == candidates
  {
    queried := [];
    for i := 0 to |candidates|
      invariant queried == candidates[..i]
      invariant forall j :: 0 <= j < i ==> !Accepts(memory(candidates[j]), lowerText)
    {
      var src := candidates[i];
      PrefixStep(candidates, i);
      queried := queried + [src];
      var reply := memory(src);
      if Accepts(reply, lowerText) {
        FirstAcceptedAt(candidates, memory, lowerText, i);
        return Some(i), queried;
      }
    }
    PrefixWhole(candidates);
    return None, queried;
  }

  /**
   * The OpenAI branch and the final passthrough, after the gateway queried
   * `queried` in vain.  The prompt is sent exactly when `useAI` is set and
   * the key is configured; a truthy answer is returned trimmed, and anything
   * else gives the original text back.
   */
  method AskOpenAI(req: Request, env: Oracles, queried: seq<string>) returns (resp: Response, trace: Trace)
    ensures trace.queried == queried
    ensures trace.prompt.Some? <==> req.useAI && env.keyConfigured
    ensures trace.prompt.Some? ==> trace.prompt.value == Prompt(req.text, req.source, req.target)
    ensures trace.prompt.Some? && env.ai(trace.prompt.value).AiAnswer? && env.ai(trace.prompt.value).answer != [] ==>
              resp == Translated(Trim(env.ai(trace.prompt.value).answer), req.target, Some(DetectedSource(req.source)), Some(OpenAI))
    ensures !(trace.prompt.Some? && env.ai(trace.prompt.value).AiAnswer? && env.ai(trace.prompt.value).answer != []) ==>
              resp == Passthrough(req)
  {
    if req.useAI && env.keyConfigured {
      var prompt := Prompt(req.text, req.source, req.target);
      var reply := env.ai(prompt);
      if reply.AiAnswer? && reply.answer != [] {
        return Translated(Trim(reply.answer), req.target, Some(DetectedSource(req.source)), Some(OpenAI)),
               Trace(queried, Some(prompt));
      }
      return Passthrough(req), Trace(queried, Some(prompt));
    }
    return Passthrough(req), Trace(queried, None);
  }

  /** The remote stages over a built candidate list: the gateway loop, then the OpenAI branch. */
  method CallServices(req: Request, env: Oracles, lowerText: string, candidates: seq<string>) returns (resp: Response, trace: Trace)
    ensures Exchange(resp, trace) == Remote(req, env, lowerText, Some(candidates))
  {
    var hit, queried := QueryGateway(candidates, env.memory, lowerText);
    if hit.Some? {
      var src := candidates[hit.value];
      return Translated(Trim(env.memory(src).translatedText), req.target, Some(src), Some(MyMemory)), Trace(queried, None);
    }
    resp, trace := AskOpenAI(req, env, queried);
  }
}
