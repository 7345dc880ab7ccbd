# CivicAI request/response layer and screen state, in Dafny

CivicAI is a citizen-services portal. Its screens forward text and images to a
hosted generative model and render the JSON that comes back. This project models
the logic that sits around those remote calls, with each call replaced by a
parameter that carries the model's reply or a failure:

- **Service layer** (`gemini_service.dfy`, module `GeminiService`).
  - The language-code lookup with its English fallback.
  - The mapping of caller history to the `contents` of a chat request. Assistant
    turns become `model` turns, and the query is appended as the last `user` turn.
  - The grounding-citation post-processing of `askAssistant`. It keeps the chunks
    that cite a non-empty web uri and removes duplicates in first-seen order, as a
    JavaScript `Set` does. It appends an "Official Sources" markdown block only
    when a URL survives.
  - The decoding step of every call: the empty-text defaults `[]`, `{}` and `""`,
    and which calls swallow a `JSON.parse` failure. `JSON.parse` is a parameter.
- **Identity vault** (`identity_profile.dfy`, class
  `IdentityProfileScreen.IdentityProfile`).
  - `handleSend`: the guard against blank or in-flight sends, the appended user
    message, the history from before that message, and the reply or its `"..."`
    fallback.
  - `handleFileUpload`: the base64 segment of the data URL, the shallow profile
    merge with `hasDocument` forced true, the new document placed first, and the
    confirmation message.
- **Grievance filing** (`grievance_portal.dfy`, class
  `GrievancePortalScreen.GrievancePortal`).
  - `handleClassify`: sets the classification, or keeps it on failure.
  - `handleSubmit`: builds a grievance with a `GR-nnnn` id and puts it first,
    then resets the form. The object invariant says every grievance is `Open` and
    has such an id.
- **Shared types** (`types.dfy`, module `Types`). Every string-literal union is a
  closed datatype, so its closed-set invariant holds by construction. Each union's
  `...FromLiteral` function recognises exactly the literals JavaScript stores at
  run time. Every `UserProfile` field is an `Option`.
- **JavaScript built-ins** (`js_runtime.dfy`, module `JsRuntime`) used by the
  code above: `trim`, `split` on one character, `join`, decimal rendering of
  integers, and `Array.from(new Set(...))`. Each comes with the lemmas that
  connect it to a partner: split and join are inverses, decimal rendering reads
  back, and set order is first-seen order.

## Model

| member | source | states |
|---|---|---|
| `Types.RoleFromLiteral` | types.ts:6 | a role string is valid exactly when it is "user" or "assistant", and it names exactly one role |
| `Types.GrievanceStatusFromLiteral` | types.ts:35 | a status is one of Open, Resolved, Escalated, and each literal names exactly one status |
| `Types.LevelFromLiteral` | types.ts:50 | priority (and risk level, types.ts:74) is one of Low, Medium, High, and each literal names exactly one level |
| `Types.BenefitStatusFromLiteral` | types.ts:44 | a benefit status is one of Active, Pending, Paused, and each literal names exactly one |
| `Types.RequestStatusFromLiteral` | types.ts:84 | a service-request status is Pending or Processed, and each literal names exactly one |
| `JsRuntime.Trim` | components/IdentityProfile.tsx:50 | `text.trim()` is the text with a leading and a trailing whitespace run removed; it is empty exactly when the text is all whitespace, and otherwise neither starts nor ends with whitespace |
| `JsRuntime.Split` | components/IdentityProfile.tsx:68 | `split(',')` yields at least one field, and no field contains the separator |
| `JsRuntime.JoinSplit` | components/IdentityProfile.tsx:68 | joining the split fields with the separator restores the string |
| `JsRuntime.SplitJoin` | services/geminiService.ts:90 | splitting a `join` of separator-free parts gives back the parts |
| `JsRuntime.JoinEndsWithLast` | services/geminiService.ts:90 | a `join` ends with its last part, so there is no trailing separator |
| `JsRuntime.Decimal` | components/GrievancePortal.tsx:38 | a number renders as digits only, with no leading zero |
| `JsRuntime.DecimalValue` | components/GrievancePortal.tsx:38 | reading the rendered digits back gives the number |
| `JsRuntime.DigitsDecimal` | components/GrievancePortal.tsx:38 | a canonical digit string is the rendering of its value (the other direction of the round trip) |
| `JsRuntime.FourDigits` | components/GrievancePortal.tsx:38 | every number from 1000 to 9999 renders as four digits |
| `JsRuntime.Distinct` | services/geminiService.ts:85 | `Array.from(new Set(s))` has no duplicates and holds exactly the elements of `s` |
| `JsRuntime.DistinctFirstSeenOrder` | services/geminiService.ts:85 | the deduplicated elements appear in the order of their first occurrence in `s` |
| `GeminiService.LanguageName` | services/geminiService.ts:9-12 | Hindi, Marathi, Tamil and Bengali are returned exactly for hi, mr, ta and bn; English is returned for en and every other code |
| `GeminiService.LanguageNameAsWritten` | services/geminiService.ts:11 | the lookup as written agrees with `LanguageName` except on `Object.prototype` member names, where it returns the inherited member |
| `GeminiService.LanguageNameAsWrittenLeaksPrototype` | services/geminiService.ts:10-11 | for the code "toString" the lookup as written returns the inherited function, though "English" is intended |
| `GeminiService.HistoryTurns` | services/geminiService.ts:72 | history turns keep their order and text, and assistant turns (only those) become model turns |
| `GeminiService.Contents` | services/geminiService.ts:72-73 | `contents` has one entry per history turn plus one, keeps history order, maps assistant to model and user to user, and ends with a user turn that carries the query |
| `GeminiService.ContentsRoundTrip` | services/geminiService.ts:103-104 | the history and the query can be recovered from the contents, so the mapping loses nothing |
| `GeminiService.AssistantRequest` | services/geminiService.ts:53-80 | `askAssistant` sends the history turns then the query as the last user turn, with web search on, in the language `LanguageName` gives |
| `GeminiService.ProfileAssistantRequest` | services/geminiService.ts:97-110 | `askProfileAssistant` sends the same turns with no tools, in the language `LanguageName` gives |
| `GeminiService.CitedUris` | services/geminiService.ts:86-87 | a uri is collected exactly when some chunk has a web entry with that non-empty uri |
| `GeminiService.SourceUrls` | services/geminiService.ts:85-87 | the URL list has no duplicates, and its elements are exactly the cited uris |
| `GeminiService.SourceUrlsFirstSeenOrder` | services/geminiService.ts:85 | the URLs are ordered by the index of the first chunk that cites each one |
| `GeminiService.SourceLines` | services/geminiService.ts:90 | one `- [u](u)` line per URL, in URL order |
| `GeminiService.SourcesBlock` | services/geminiService.ts:82-92 | `links` is empty when no chunk cites a uri (including when there are no chunks); otherwise it is the heading followed by the newline-joined lines |
| `GeminiService.SourcesBlockLines` | services/geminiService.ts:90 | read line by line, the block is two blank lines, the heading, then exactly the URL lines in order, ending with ")" and no trailing newline |
| `GeminiService.TwoDistinctSources` | services/geminiService.ts:85-87 | citations x, y, x yield the URL list [x, y] |
| `GeminiService.AssistantAnswerAsWritten` | services/geminiService.ts:94 | the result is the reply text followed by `links`; an absent text becomes the string "undefined" |
| `GeminiService.AssistantAnswerAsWrittenUndefined` | services/geminiService.ts:94 | a reply with no text and no citations yields "undefined" |
| `GeminiService.AssistantAnswer` | services/geminiService.ts:82-94 | the answer is the reply text unchanged when no URL survives, otherwise text + heading + lines; it matches the code whenever the text is present |
| `GeminiService.TextOr` | services/geminiService.ts:50 | the reply text or, when it is absent or empty, the fallback: an absent or empty text becomes the fallback, any other text is kept |
| `GeminiService.Decode` | services/geminiService.ts:139 | empty or absent text decodes to `[]` for scheme search and `{}` for the object calls; parsed JSON is returned as parsed; a parse failure becomes `{}` for profile extraction only and an error for every other call |
| `GeminiService.ExtractTextFromImageResult` | services/geminiService.ts:244 | transcription yields "" exactly for an absent or empty text, and the text otherwise |
| `IdentityProfileScreen.Project` | components/IdentityProfile.tsx:56 | the history has one `{role, content}` entry per message, in the same order |
| `IdentityProfileScreen.ReplyText` | components/IdentityProfile.tsx:58 | the shown reply is never empty: an absent or empty response becomes "...", any other is kept |
| `IdentityProfileScreen.MergeProfile` | components/IdentityProfile.tsx:71 | every field present in the extraction is taken, every absent one is kept from the previous profile, and `hasDocument` is true |
| `IdentityProfileScreen.MergeProfileIdempotent` | components/IdentityProfile.tsx:71 | merging the same extraction again changes nothing |
| `IdentityProfileScreen.MergeEmptyExtraction` | components/IdentityProfile.tsx:71 | merging `{}` only sets `hasDocument` |
| `IdentityProfileScreen.Base64Payload` | components/IdentityProfile.tsx:68 | a payload exists exactly when the data URL has a comma, and it holds no comma |
| `IdentityProfileScreen.Base64PayloadOfDataUrl` | components/IdentityProfile.tsx:68 | for `header,data[,rest]` with comma-free header and data, the payload is `data` |
| `IdentityProfileScreen.AnswerMessages` | components/IdentityProfile.tsx:58 | a failed call adds no message; a successful one adds exactly one assistant message whose content is the reply or "..." |
| `IdentityProfileScreen.SentContents` | components/IdentityProfile.tsx:56-57 | the profile assistant receives one turn per earlier message, in order, then the new text as the last user turn |
| `IdentityProfileScreen.IdentityProfile.constructor` | components/IdentityProfile.tsx:13-38 | the sample profile, the welcome message, the two sample documents, empty input, not loading |
| `IdentityProfileScreen.IdentityProfile.HandleSend` | components/IdentityProfile.tsx:49-60 | a blank text or a send while loading changes nothing; otherwise the user message is appended, the input is cleared, the request carries the pre-send log, the reply is appended on success only, and loading is false at the end; profile and docs are untouched |
| `IdentityProfileScreen.IdentityProfile.SetInput` | components/IdentityProfile.tsx:158 | typing sets the input and changes nothing else |
| `IdentityProfileScreen.IdentityProfile.Send` | components/IdentityProfile.tsx:49-60 | pressing Enter runs `handleSend()` on the current input: the same outcome as `HandleSend` with the input as the text |
| `IdentityProfileScreen.IdentityProfile.HandleFileUpload` | components/IdentityProfile.tsx:62-77 | no file changes nothing; otherwise the data URL's base64 segment is sent; on success the profile is merged, the new doc goes first before the earlier docs in order, and the confirmation is appended; on failure only `isUploading` changes; `isUploading` is false at the end |
| `GrievancePortalScreen.GrievanceId` | components/GrievancePortal.tsx:38 | the id is "GR-" followed by four digits whose value is the draw plus 1000, so it lies in [1000, 9999] |
| `GrievancePortalScreen.GrievanceIdInjective` | components/GrievancePortal.tsx:38 | different draws give different ids |
| `GrievancePortalScreen.NewGrievance` | components/GrievancePortal.tsx:37-45 | the grievance is Open, has a GR id, the classification's department, `aiClassification` equal to the classification, the description, and the subject or "New Issue" when the subject is empty |
| `GrievancePortalScreen.InitialGrievanceId` | components/GrievancePortal.tsx:19 | the sample grievance's id GR-1024 has the GR id form |
| `GrievancePortalScreen.GrievancePortal.constructor` | components/GrievancePortal.tsx:13-20 | empty form, no classification, the sample grievance, and the invariant holds |
| `GrievancePortalScreen.GrievancePortal.SetSubject` | components/GrievancePortal.tsx:66 | typing sets the subject and changes nothing else |
| `GrievancePortalScreen.GrievancePortal.SetDescription` | components/GrievancePortal.tsx:75 | typing sets the description and keeps the classification already shown |
| `GrievancePortalScreen.GrievancePortal.HandleClassify` | components/GrievancePortal.tsx:22-33 | a blank description changes nothing; otherwise the description is sent, the classification becomes the result on success and is unchanged on failure, and loading is false at the end; the form and grievances are untouched |
| `GrievancePortalScreen.GrievancePortal.HandleSubmit` | components/GrievancePortal.tsx:35-50 | without a classification nothing changes; otherwise the new grievance is prepended to the unchanged earlier list (length + 1), and subject, description and classification are reset; every grievance stays Open with a GR id |

## Findings

| source | as written | input that shows it | evidently intended | confidence | as-written member | corrected member |
|---|---|---|---|---|---|---|
| services/geminiService.ts:9-12 | the table lookup `names[lang]`, defaulting to "English", on an object literal also finds members inherited from `Object.prototype`, and those are truthy | `lang = "toString"` (or "constructor", "valueOf", "__proto__", ...) returns the native function or object, which then appears in the prompt text | "English" for every code outside the five | not executed; reachable only if a caller passes such a code | `GeminiService.LanguageNameAsWrittenLeaksPrototype` | `GeminiService.LanguageName` |
| services/geminiService.ts:94 | `response.text + links` converts an absent text to the string "undefined" | a reply with no text, such as one that carries only citations | absent text read as empty, as `extractTextFromImage` defaults to "" (services/geminiService.ts:244) | not executed; depends on the model returning no text | `GeminiService.AssistantAnswerAsWrittenUndefined` | `GeminiService.AssistantAnswer` |

## Left out

- The hosted model: `GoogleGenAI` construction, `generateContent`, the model id, prompt wording, system-instruction wording, temperatures and response-schema declarations. Replies, citations and failures are parameters.
- The API key: the code passes `process.env.API_KEY` through without checking it, so there is no configuration-error path. Every remote failure is the single `RequestFailed`.
- `JSON.parse`: decoders take the parser as a parameter, required only to parse `[]` and `{}`. A decoded value is returned as a raw JSON value and never checked against the declared schema, because the code does no validation.
- Parse failures: only `extractProfileFromImage` (services/geminiService.ts:139) catches a `JSON.parse` failure and returns `{}`; the other six decoders let it throw to their caller; `handleClassify` (components/GrievancePortal.tsx:28) catches it like any other `Failure`.
- Screens receive already typed values: the classification in `HandleClassify` and the profile fields in `HandleFileUpload`. Malformed JSON shapes therefore do not reach the screens in this model. Examples are a `{}` classification (truthy, so `handleSubmit` would proceed with an undefined department), extra keys, or `null` fields copied by the spread.
- Asynchrony: each handler runs to completion in one step. The `isLoading = true` and `isUploading = true` windows are observable only through the guard at entry, which may find a request in flight. The render-time `messages` (IdentityProfile.tsx:56) and `docs` (IdentityProfile.tsx:72) values equal the current state here. React's batching of updates is not modelled.
- Clocks: `Date.now()` and `new Date()` are natural-number parameters, and message ids are their decimal rendering. The two readings at IdentityProfile.tsx:58 (id and timestamp) share one parameter.
- `Math.random`: the draw `Math.floor(Math.random() * 9000)` is an integer parameter below 9000. Floating-point arithmetic is not modelled, and `approvalProbability` is a `real`.
- `FileReader`: the data URL is a parameter. A failed read (a `null` result) is not modelled.
- Text: Dafny strings are sequences of Unicode scalar values, while JavaScript strings are UTF-16 code units. `trim` and `split(',')` agree on both. No length of user text is used.
- `console.error` logging, scroll effects, `translations`, JSX and CSS, and the `Tab` navigation union of types.ts.
- components/Login.tsx, components/WelfareTracker.tsx and components/SchemeDiscovery.tsx: presentation only, or forwarding to a remote call.
- GeminiService.AssistantRequest and GeminiService.ProfileAssistantRequest name the language with the corrected `LanguageName`, so the request contracts of `HandleSend` and `Send` describe the intended prompt; as written, a code such as "toString" puts the inherited member into the system instruction (see the first row of Findings).
- The request side of the seven decoding calls: prompt text and schema only; their language argument enters only the prompt.
