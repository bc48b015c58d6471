# Sahaay AI: translation route, `t` lookup and account store, in Dafny

This project models three parts of the Sahaay AI application.

- **The translation route** `POST /api/translate/translate` (`server/index.js`). It validates the request. It then tries
  its stages in a fixed order and returns the first answer:
  1. an exact lookup in a built-in phrase dictionary, using the text lower-cased and trimmed;
  2. a partial lookup, where either string contains the other;
  3. the MyMemory gateway, asked once per candidate source language;
  4. an optional OpenAI fallback;
  5. the original text.

  With an explicit `source`, that source is the only candidate. Without one, the code is evidently meant to use the
  language whose Unicode block the text uses, followed by the fallback list `te, hi, ta, bn, en` without repeats. As
  written, it never builds that list (see "Findings"). With no script detected the list stays empty, so MyMemory is
  never asked. With a script detected, building the list throws, and the route's outer `catch` returns the original
  text.
- **The client's `t(key)`** (`client/src/i18n/LanguageContext.jsx`). It resolves a translation key in three stages: a
  flat key, then a dotted path through nested objects, then the first key whose last dotted segment matches. The
  current language is tried first, then English. The result is `value || key`. `useLanguage` returns the provider's
  context, or fails outside a provider.
- **The in-memory account store** (`server/routes/auth.js`). `/signup` validates the fields, refuses short passwords
  and taken emails, and stores a hashed, unverified record. `/login` checks the stored hash. `/verify` accepts any
  present token.

## How the route is modelled

The route is modelled as a pure function, `Translation.Route`. Its inputs are the phrase table, the request, an
`Oracles` value and the candidate list the handler reaches the gateway with. The `Oracles` value holds:

- MyMemory's reply for each candidate source code;
- OpenAI's reply for each prompt;
- whether `OPENAI_API_KEY` is set.

The candidate list is `None` when building it throws. The outer `catch` (lines 199-201) then answers with the original
text, and no service is called.

The result is the JSON response together with a trace. The trace records the source codes sent to MyMemory, in
order, and the prompt sent to OpenAI, if any.

There are two instances of `Route`:

- `Translation.Resolve` is the route as written. Its candidate list is `PlanAsWritten`. The handler
  `Translation.Translate` is proved to compute it on the built-in dictionary.
- `Translation.ResolveCorrected` is the route with the intended candidate list, `Plan`. The handler
  `Translation.TranslateCorrected` is proved to compute it. It keeps the source's push loop that skips codes already
  present.

Both handlers share the `for...in` partial search (`DictionaryStages`) and the gateway loop (`QueryGateway`). The
general laws in `TranslationLaws` are stated about `Route` for any candidate list, so they hold for both routes. The
worked requests are about the route as written.

## How `t` and the account store are modelled

`t` follows the same pattern. `LanguageContext.Resolved` is the specification. The method `LanguageContext.T` runs
the source's segment walk and `for...in` search, each with its `break`, and is proved equal to it.

The account store is the class `Auth.UserStore`:

- its `users` map is updated by `Signup`, which is proved equal to the pure function `SignupOutcome`;
- `Login` only reads it, and its contract states each of its replies;
- signup keeps the invariant that every record is stored under its own, non-empty email and is unverified.

## JavaScript semantics

JavaScript objects are modelled as insertion-ordered lists of entries (`Entries`), and `for...in` walks the list in
order. The model assumes an object's entries have distinct keys, as a JavaScript object's do; the phrase literal of
`server/index.js` repeats no key. `obj[key]` is read as the first entry with that key, which on distinct keys is the
only one. (A JavaScript literal that repeats a key keeps the last value, at the first key's position; such literals are
not modelled.)

Missing request fields are modelled as "", because the code only tests them for truthiness.

The `Text` module gives `trim` the exact JavaScript white-space set. `toLowerCase` covers ASCII letters only. The
module also models `includes` and `split('.')`. `length` counts UTF-16 code units, so a password of three emoji
passes the six-character check.

## A request the partial stage answers

"xyzzy nonword" asked for Bengali (`bn`) is answered "না" by the partial stage, and no service is called. The stage
tests `lowerText.includes(key)` for each Bengali key in order. The key "no" (the eleventh) occurs inside "nonword".
None of the ten keys before it occurs in the text, because each contains one of the letters h, g, b, t, e or k, and the
text contains none of them.

- `TranslationLaws.NoWinsInBengali` proves this for every such text.
- `TranslationLaws.NonwordIsAnsweredNo` proves the response for "xyzzy nonword".

## Model

| member | source | states |
|---|---|---|
| Translation.Route | server/index.js:31-203 | The response is the 400 'Missing text or target language', with no remote call, exactly when text or target is missing. Every other request gets a translation object whose `language` is the requested target. |
| Translation.Resolve | server/index.js:129-169 | As written, a request in auto mode sends nothing to MyMemory, so any MyMemory answer comes from an explicit source. |
| Translation.ResolveCorrected | server/index.js:129-169 | With the intended candidate list, the codes sent to MyMemory are a prefix of the planned candidates. |
| Translation.Remote | server/index.js:129-201 | After the dictionary stages the answer is always a translation for the target. The codes queried are a prefix of the candidate list. A candidate list that throws gives exactly the passthrough response with no remote call and no prompt. Whenever some candidate's reply is accepted, MyMemory answers; a MyMemory answer names the last code queried as `detected`. |
| Translation.Generative | server/index.js:171-197 | The prompt is sent exactly when `useAI` is set and the key is configured. The answer is a translation for the target that is never attributed to MyMemory, and the codes queried before it are kept. |
| Translation.Translate | server/index.js:31-203 | The handler as written: its response and the remote calls it makes are exactly those of `Resolve` on the built-in dictionary, including the outer `catch` when building the candidates throws. |
| Translation.TranslateCorrected | server/index.js:31-203 | The handler with the intended candidate list: its response and remote calls are exactly those of `ResolveCorrected` on the built-in dictionary. |
| Translation.DictionaryStages | server/index.js:112-127 | The exact lookup followed by the `for...in` partial search returns exactly the dictionary's answer `LexiconHit`. |
| Translation.LexiconHitIsStored | server/index.js:112-127 | With no phrasebook for the target there is no dictionary answer. Any dictionary answer is the stored translation of a phrase equal or related to the text. |
| Translation.NormalizeIdempotent | server/index.js:108 | Lower-casing and trimming a text that is already lower-cased and trimmed changes nothing. |
| Translation.RelatedSymmetric | server/index.js:121 | The partial test is symmetric in its two strings, and every string is related to itself. |
| Translation.AcceptedIsNotAnEcho | server/index.js:156-160 | An accepted MyMemory reply, lower-cased and trimmed, is non-empty and differs from the lower-cased, trimmed text. |
| Translation.PromptShape | server/index.js:177-182 | With an explicit source the prompt opens by naming the source code; otherwise it opens by asking to detect the language. Either way the target code follows, with the request for the translated text only, and it ends with the text in quotes. |
| Translation.PlanAsWrittenAgreesOnlyWhenExplicit | server/index.js:130-147 | The candidate list as written equals the intended one exactly when the source is explicit. Whenever it is built, it is a prefix of the intended list and holds no fallback code other than the explicit source. |
| Translation.CallServices | server/index.js:129-197 | Given a built candidate list, the gateway loop, the OpenAI branch and the passthrough give exactly `Remote`: the first accepted MyMemory reply and the candidates queried up to it, otherwise the generative stage. |
| Translation.QueryGateway | server/index.js:152-169 | The loop stops at exactly the first candidate whose reply is accepted, having queried the candidates up to and including it; when none is accepted it has queried them all. |
| Translation.AskOpenAI | server/index.js:171-197 | The prompt is sent exactly when `useAI` is set and the key is configured, and it is `Prompt`. A truthy answer is returned trimmed, with `source` or 'auto' as `detected` and OpenAI as provider. Otherwise the original text comes back. The codes already queried are kept. |
| Translation.PartialMatch | server/index.js:118-127 | The `for...in` loop answers exactly when some key is related to the text (either includes the other). It then returns the value of the first related key in enumeration order. |
| Translation.FirstRelated | server/index.js:119-126 | None exactly when no key is related; otherwise the index of a related key with no related key before it. |
| Translation.FirstRelatedAt | server/index.js:119-126 | A related key with no related key before it is the one the partial stage settles on. |
| Translation.DetectScript | server/index.js:135-141 | Answers one of hi, ta, te, bn, and answers nothing exactly when the text uses none of the four Unicode blocks. |
| Translation.FirstScript | server/index.js:135-141 | The code returned is that of a block the text uses, with no earlier block in the list used. Nothing is returned exactly when no block is used. |
| Translation.DevanagariFirst | server/index.js:136 | Any Devanagari character makes the detected language Hindi, whatever other scripts the text mixes in. |
| Translation.TamilSecond | server/index.js:137 | Tamil text with no Devanagari character is detected as Tamil. |
| Translation.LatinUndetected | server/index.js:140 | Text below U+0900 is not detected. |
| Translation.Plan | server/index.js:130-147 | The candidate list the code evidently intends. An explicit source (truthy, not 'auto') is the only candidate. Otherwise there are five distinct candidates, the same set as the fallback list, with the detected language first; without detection they are the fallback list itself. |
| Translation.PlanCandidates | server/index.js:130-147 | The push loop that skips codes already present builds exactly the intended list `Plan`. |
| Translation.FallbackStep | server/index.js:146 | One turn of the `forEach`: pushing a fallback unless it is present extends the planned prefix by that element or leaves it unchanged. |
| Translation.MoveToFront | server/index.js:144-146 | Putting the detected code first and then the fallbacks without it keeps five distinct codes. |
| Translation.FallbacksDistinct | server/index.js:146 | The fallback list has no repeats and no empty code. |
| Translation.Without | server/index.js:146 | The list keeps exactly the elements other than the removed one. |
| Translation.WithoutDistinct | server/index.js:146 | Removing an element keeps a repeat-free list repeat-free and shortens it by one exactly when the element was present. |
| Translation.FirstAccepted | server/index.js:152-169 | None exactly when no candidate's reply passes the acceptance test; otherwise an accepted candidate with every earlier one rejected. |
| Translation.FirstAcceptedAt | server/index.js:152-169 | An accepted reply after only rejected ones is the one the gateway returns. |
| TranslationLaws.ExactMatchWins | server/index.js:108-116 | A truthy dictionary entry for the lower-cased, trimmed text is returned with no `detected`, no provider and no remote call. |
| TranslationLaws.ExactMatchIgnoresTheRest | server/index.js:112-116 | An exact hit does not depend on `source`, `useAI` or the services. |
| TranslationLaws.PartialMatchFirst | server/index.js:118-127 | Without an exact hit, the value of the first related phrase in enumeration order is returned, with no remote call. |
| TranslationLaws.BlankTextMatchesFirstPhrase | server/index.js:108-126 | Text of white space only trims to "", which every key includes, so the target's first phrase is returned. |
| TranslationLaws.BlankTextInHindi | server/index.js:38-126 | "   " asked for Hindi gives 'नमस्ते'. |
| TranslationLaws.NoPhrasebookSkipsDictionary | server/index.js:112-119 | A target without a phrasebook goes straight to the remote stages. |
| TranslationLaws.GatewayTakesFirstAccepted | server/index.js:152-169 | A MyMemory answer comes from the first accepted candidate in planned order. Exactly the candidates up to it were queried, it is reported as `detected`, and the translation is its trimmed text. |
| TranslationLaws.AcceptedReplyWins | server/index.js:152-169 | When the dictionary has no answer and a candidate's reply is accepted after only rejected ones, the route answers with that reply trimmed, naming the candidate as `detected` and MyMemory as provider; exactly the candidates up to it were queried and no prompt was sent. |
| TranslationLaws.ExplicitSourceOnly | server/index.js:131-152 | With an explicit source, at most that one code is sent to MyMemory, and it is the `detected` of any MyMemory answer. Here the route as written and the intended route agree. |
| TranslationLaws.EchoIsNeverAccepted | server/index.js:159-160 | A service that only echoes the text back, in any case or padding, never provides the answer. |
| TranslationLaws.NoPromptWithoutOptIn | server/index.js:172-174 | Without `useAI` or without the key, no prompt is sent and OpenAI never answers. |
| TranslationLaws.GenerativeAnswerUsed | server/index.js:172-188 | For any built candidate list: after the dictionary and every candidate fail, a truthy OpenAI answer is returned trimmed, with `source` or 'auto' as `detected`; every candidate and then the prompt were sent. |
| TranslationLaws.BlankAnswerGivesEmptyTranslation | server/index.js:184-187 | For any built candidate list: a white-space-only OpenAI answer is truthy, so it is used, and the translation is "". |
| TranslationLaws.PassthroughWhenAllFail | server/index.js:195-201 | When no stage succeeds, or building the candidate list throws, the original, un-normalised text comes back. |
| TranslationLaws.ThankYouInHindi | server/index.js:40-115 | "thank you" asked for Hindi gives 'धन्यवाद' with no remote call, whatever the source, flag or services. |
| TranslationLaws.NoWins | server/index.js:119-126 | In a phrasebook opening with hello … okay, no, a text longer than nine characters containing "no" and lacking h, g, b, t, e, k gets the value of "no". |
| TranslationLaws.NoWinsInBengali | server/index.js:89-126 | Such a text asked for Bengali gives 'না' with no remote call. |
| TranslationLaws.NonwordIsAnsweredNo | server/index.js:93-121 | The route as written answers "xyzzy nonword" for Bengali with the translation 'না', with no `detected`, no provider and no remote call. |
| TranslationLaws.NoIsFirstRelated | server/index.js:120-121 | For such a text the first related Bengali-like phrase is "no", at index 10. |
| TranslationLaws.UnrelatedByLetter | server/index.js:121 | A shorter phrase holding a letter the text lacks is related in neither direction. |
| TranslationLaws.TamilTextTriesTamilFirst | server/index.js:137-144 | In the intended list, Tamil text in auto mode puts Tamil first. |
| TranslationLaws.UndetectedAutoSkipsGateway | server/index.js:143-146 | As written, text in no detected script in auto mode skips MyMemory entirely and goes straight to the generative stage. |
| TranslationLaws.DetectedScriptFallsToCatch | server/index.js:143-146 | As written, text in a detected script in auto mode that the dictionary does not answer throws, and the outer `catch` returns it unchanged with no remote call. |
| TranslationLaws.CorrectedAsksPlanFirst | server/index.js:152-169 | With the intended list, when the dictionary does not answer, the first planned candidate is the first code sent to MyMemory. |
| TranslationLaws.GoodLuckSkipsGateway | server/index.js:143-146 | As written, "good luck" in auto mode to English sends nothing to MyMemory. |
| TranslationLaws.GoodLuckAsksTeluguFirst | server/index.js:146-169 | With the intended list, "good luck" in auto mode to English asks MyMemory about Telugu first. |
| TranslationLaws.TamilTextFallsToCatch | server/index.js:143-201 | As written, "வணக்கம்" in auto mode to English comes back unchanged, with no remote call. |
| TranslationLaws.TamilTextAsksTamilFirst | server/index.js:137-169 | With the intended list, "வணக்கம்" in auto mode to English asks MyMemory about Tamil first. |
| TranslationLaws.HindiBook | server/index.js:37-53 | The phrase table holds the Hindi phrasebook under 'hi'. |
| TranslationLaws.TamilBook | server/index.js:54-70 | The phrase table holds the Tamil phrasebook under 'ta'. |
| TranslationLaws.TeluguBook | server/index.js:71-87 | The phrase table holds the Telugu phrasebook under 'te'. |
| TranslationLaws.BengaliBook | server/index.js:88-104 | The phrase table holds the Bengali phrasebook under 'bn'. |
| TranslationLaws.EnglishHasNoBook | server/index.js:36-105 | There is no phrasebook for English, nor for any target other than hi, ta, te and bn. |
| TranslationLaws.MixedScriptsDetectHindi | server/index.js:136 | Tamil text with a Devanagari word is detected as Hindi. |
| Entries.Lookup | server/index.js:112 | `obj[key]` is undefined exactly when no entry has the key; otherwise it is the value of an entry with that key. |
| Entries.LookupFirst | server/index.js:36-105 | `obj[key]` is the value of the first entry holding the key. |
| Text.TrimSpec | server/index.js:108 | `trim` returns a piece of the string that neither starts nor ends with white space. It is empty exactly when the string is all white space, and it leaves a string with no white space at either end unchanged. |
| Text.TrimIdempotent | server/index.js:108 | Trimming twice is trimming once. |
| Text.TrimLowerCommute | server/index.js:108-160 | Trimming then lower-casing equals lower-casing then trimming. |
| Text.LowerSpec | server/index.js:108 | `toLowerCase` keeps the length and maps each character on its own. |
| Text.LowerIdempotent | server/index.js:108 | Lower-casing twice is lower-casing once. |
| Text.Includes | server/index.js:121 | `includes` holds exactly when the needle is a prefix of some suffix of the haystack. |
| Text.ForeignCharNotIncluded | server/index.js:121 | A needle with a character the haystack lacks is not included. |
| Text.LongerNotIncluded | server/index.js:121 | A needle longer than the haystack is not included. |
| Text.Split | client/src/i18n/LanguageContext.jsx:23 | `split('.')` gives at least one piece, no piece holds a dot, and joining the pieces with dots gives the key back. |
| Text.SplitJoin | client/src/i18n/LanguageContext.jsx:23 | Splitting dot-free pieces joined with dots gives the pieces back. |
| Text.LastSegment | client/src/i18n/LanguageContext.jsx:39-40 | The last segment has no dot and is the whole key when the key has none. |
| Text.Utf16Length | server/routes/auth.js:20 | `length` lies between the number of characters and twice it, and equals it when every character is in the Basic Multilingual Plane. |
| LanguageContext.T | client/src/i18n/LanguageContext.jsx:17-75 | `t(key)` returns exactly `Resolved`: the current language's stages, then English's when still undefined, then `value` or else `key`. |
| LanguageContext.StagesIn | client/src/i18n/LanguageContext.jsx:19-45 | The flat lookup, the segment walk with its `break` and the `for...in` last-segment search compute exactly `Stages`. |
| LanguageContext.Walk | client/src/i18n/LanguageContext.jsx:23-32 | An empty path gives the value itself; a non-object with segments left gives undefined. |
| LanguageContext.WalkAppend | client/src/i18n/LanguageContext.jsx:25-32 | Walking a concatenated path is walking its first part and then its second from where the first ended. |
| LanguageContext.WalkStopsAtNonObject | client/src/i18n/LanguageContext.jsx:26-30 | A walk that meets a string or undefined before its last segment yields undefined. |
| LanguageContext.FirstSuffix | client/src/i18n/LanguageContext.jsx:38-44 | None exactly when no entry's last segment is the key with a truthy value; otherwise the first such entry in enumeration order. |
| LanguageContext.FirstSuffixAt | client/src/i18n/LanguageContext.jsx:38-44 | A hit with no hit before it is the one the search breaks on. |
| LanguageContext.BySuffix | client/src/i18n/LanguageContext.jsx:36-45 | The last-segment stage only ever yields a truthy value. |
| LanguageContext.FlatEntryWins | client/src/i18n/LanguageContext.jsx:19-74 | A truthy flat entry of the current language is returned as it is. |
| LanguageContext.NestedEntryWins | client/src/i18n/LanguageContext.jsx:22-74 | Without a flat entry, a truthy value at the end of the dotted path is returned. |
| LanguageContext.SuffixEntryWins | client/src/i18n/LanguageContext.jsx:36-74 | Without flat or nested hits, the first entry in enumeration order whose last segment is the key and whose value is truthy is returned. |
| LanguageContext.DottedKeyNeverMatchesBySuffix | client/src/i18n/LanguageContext.jsx:39-40 | A key containing a dot never matches by last segment. |
| LanguageContext.EnglishOnlyWhenUndefined | client/src/i18n/LanguageContext.jsx:48 | Once the current language finds anything, even a falsy value, the English table plays no part. |
| LanguageContext.UndefinedResolvesThroughEnglish | client/src/i18n/LanguageContext.jsx:19-72 | A language whose stages find nothing, whether it has no table or its table lacks the key, resolves exactly as English does. |
| LanguageContext.Stages | client/src/i18n/LanguageContext.jsx:19-45 | A language with no table yields nothing from the three stages, and a flat key present in the table wins over the other two stages. |
| LanguageContext.Resolved | client/src/i18n/LanguageContext.jsx:74 | `t` returns something truthy or the key itself, and something truthy whenever the key is non-empty. |
| LanguageContext.EmptyEntryYieldsKey | client/src/i18n/LanguageContext.jsx:19-74 | An entry holding "" stops the search, and the key is returned whatever English holds. |
| LanguageContext.UseLanguage | client/src/i18n/LanguageContext.jsx:98-104 | Outside a provider the hook fails with 'useLanguage must be used within LanguageProvider'; inside one it returns the context. |
| Auth.UserStore.constructor | server/routes/auth.js:8 | The store starts as the empty `users` object, which is consistent. |
| Auth.UserStore.Signup | server/routes/auth.js:16-49 | The reply and the new `users` map are exactly `SignupOutcome` of the old map, and the store stays consistent. |
| Auth.UserStore.Login | server/routes/auth.js:52-75 | A missing field gives 400, an unknown email 401 with the user-not-found flag, a wrong password 401. A session is returned exactly when the fields are present, the email is registered and the hash matches, and it carries the signed public record. On a consistent store the session is for the account under the given email. The reply is `LoginOutcome` of the store, so the signup/login round trip holds for the class too. The store is unchanged. |
| Auth.Verify | server/routes/auth.js:78-87 | A token is confirmed exactly when present; otherwise the reply is 400 'Missing token'. |
| Auth.SignupSucceedsIff | server/routes/auth.js:19-25 | Signup succeeds exactly when name, email and password are present, the password has at least six UTF-16 units, and the email is not registered. |
| Auth.SignupErrorOrder | server/routes/auth.js:19-25 | A missing field gives the 400 'Missing name, email, or password'. Otherwise a short password gives the 400 'Password must be at least 6 characters', before the email is checked. Otherwise a taken email gives the 400 'Email already registered' with `userExists`. |
| Auth.SignupFailureChangesNothing | server/routes/auth.js:19-25 | A refused signup leaves every record, that of a taken email included, as it was. |
| Auth.SignupAddsOneRecord | server/routes/auth.js:28-44 | A successful signup adds exactly one record under the new email (name, email, hashed password, `verified: false`), keeps every other record, and replies with `{id, email, name}` and the token signed over them at the signup time. |
| Auth.SignupOutcome | server/routes/auth.js:23-39 | Signup keeps every record under its own non-empty email, with a name, unverified. |
| Auth.LoginErrors | server/routes/auth.js:55-67 | A missing field gives the 400 'Missing email or password'. An unknown email gives a 401 with `userNotFound`. A hash mismatch gives the 401 'Invalid password. Please check and try again.' |
| Auth.LoginOutcome | server/routes/auth.js:64-70 | A successful login means the email is registered and the hash matches, and it returns the stored id, email and name with a token signed for them at the login time. |
| Auth.LoginReadsOneRecord | server/routes/auth.js:58 | Login depends on the store only through the record under the given email. |
| Auth.SignupThenLogin | server/routes/auth.js:28-70 | After a successful signup, logging in with the same email and password at any later time succeeds with the new account and a token signed at the login time, provided `compare` accepts a password against its own hash. A login in the same second as the signup returns the signup's own reply. |
| Auth.AstralPasswordLongEnough | server/routes/auth.js:20 | Three characters outside the Basic Multilingual Plane have length 6, so they meet the six-character minimum. |
| Auth.VerifyIgnoresToken | server/routes/auth.js:81-82 | Every present token gets the same confirmation; its content is never read. |

## Left out

- Logging (`console.log`, `console.error`), the Express plumbing and the HTTP status of successful replies are not modelled.
- The fetch URL of the MyMemory call is left out. Its parameters are the text, the candidate and the target, so the oracle is indexed by the candidate alone: the text and target are fixed for one request.
- A MyMemory call or JSON parse that throws is the reply `NoReply`. A throwing OpenAI call is `AiFailed`. In both cases the route goes on, as the inner `try`/`catch` blocks do.
- The outer `catch` of the route (lines 199-201) is modelled for the one throw the modelled path has, the TypeError of line 146. A non-string `text` throws at `toLowerCase` and would reach the outer `catch`; a non-string `target` only changes the key `dictionary[target]` reads and what is echoed back. Neither is modelled.
- The 500 replies of the auth handlers are not modelled. With the hash, compare and sign functions given as inputs, nothing in the modelled handlers can throw.
- `toLowerCase` is modelled for the ASCII letters A-Z only, and characters are Unicode scalar values. Full Unicode case mapping, including mappings that change the length, is not modelled.
- Property names inherited from `Object.prototype` are not modelled. For example, `users['constructor']` or `dictionary['constructor']` is truthy in JavaScript, but the model treats such keys as absent.
- Request fields that are not strings (a numeric password, say) are not modelled. Every field is a string, and a missing one is "", except `useAI`, which is its truthiness.
- `Auth.UserStore.Signup`: `createdAt` is not stored. The fresh id from `crypto.randomBytes` and the time the token is signed at are inputs.
- bcrypt's `hash` and `compare` and JWT signing are given functions. Signing takes the payload and the issue time in seconds, since the token carries `iat` and an expiry derived from it. The salt, the secret, the seven-day expiry and the token format are not modelled. `Auth.SignupThenLogin` assumes `compare` accepts a password against its own hash.
- `Auth.UserStore.Signup`: concurrent requests are not modelled. Between the duplicate check and the insert, another signup for the same email could interleave at the `await`, and each handler call is modelled as one atomic step.
- The React provider's state, the `localStorage` read and write, `setLanguage` and the debug `useEffect` (lines 6-15 and 77-96) are not modelled. `t` takes the current language and the translation tables as parameters; the `translations` data module is not part of this model.
- `for...in` enumeration order is taken to be the order of the entries. This is JavaScript's order for non-integer keys.
- The other routes of `server/index.js` (`/api/ai/query` and the rest) and the client pages are outside the modelled core.

## Findings

| source | as written | input that shows it | evidently intended | confidence | as-written member | corrected member |
|---|---|---|---|---|---|---|
| server/index.js:144-146 | Line 144 has no semicolon and line 146 opens with `[`, so the fallback `forEach` is chained onto `candidates.push(probable)[...]` inside the `if`. With no script detected the `if` is skipped, and `candidates` stays empty. | text "good luck", target "en", source "auto" | MyMemory is asked about te, hi, ta, bn and en in turn | high; not executed | TranslationLaws.GoodLuckSkipsGateway | TranslationLaws.GoodLuckAsksTeluguFirst |
| server/index.js:144-146 | With a script detected, `push` returns 1 and the comma expression in the brackets gives 'en'. `(1)['en']` is `undefined`, so `.forEach` throws a TypeError, and the outer `catch` returns the text. | text "வணக்கம்", target "en", source "auto" | MyMemory is asked about ta first, then the other fallbacks | high; not executed | TranslationLaws.TamilTextFallsToCatch | TranslationLaws.TamilTextAsksTamilFirst |
