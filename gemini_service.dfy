/** The request/response layer of the portal (services/geminiService.ts)
    with the hosted model taken out: what a call sends is computed from its
    inputs, and what it returns is computed from the model's reply, which
    is a parameter here. */
module GeminiService {
  import opened Types
  import opened JsRuntime

  // ---------------------------------------------------------------------
  // Language names
  // ---------------------------------------------------------------------

  /** The `names` record: the five supported language codes. */
  const LanguageNames: map<string, string> :=
    map["en" := "English", "hi" := "Hindi", "mr" := "Marathi", "ta" := "Tamil", "bn" := "Bengali"]

  /** The display name of a language code, English for any code outside the
      table. This is the own-property reading of `names[lang] || "English"`;
      `LanguageNameAsWritten` below is the lookup as the source performs it. */
  function LanguageName(lang: string): (r: string)
    ensures r == "Hindi" <==> lang == "hi"
    ensures r == "Marathi" <==> lang == "mr"
    ensures r == "Tamil" <==> lang == "ta"
    ensures r == "Bengali" <==> lang == "bn"
    ensures r == "English" <==> lang !in {"hi", "mr", "ta", "bn"}
  {
    if lang in LanguageNames then LanguageNames[lang] else "English"
  }

  /** What reading a property of a plain JavaScript object literal yields:
      one of its own string values, a member inherited from
      `Object.prototype` (a function or, for `__proto__`, an object), or
      `undefined`. */
  datatype PropertyValue = StringValue(s: string) | InheritedMember(name: string) | Undefined

  /** The properties every object literal inherits from `Object.prototype`. */
  const ObjectPrototypeMembers: set<string> := {
    "constructor", "hasOwnProperty", "isPrototypeOf", "propertyIsEnumerable",
    "toLocaleString", "toString", "valueOf", "__proto__",
    "__defineGetter__", "__defineSetter__", "__lookupGetter__", "__lookupSetter__"
  }

  predicate Truthy(v: PropertyValue) {
    match v
    case StringValue(s) => s != ""
    case InheritedMember(_) => true
    case Undefined => false
  }

  /** `names[lang] || "English"` exactly as written: the lookup also finds
      inherited members, and those are truthy. It agrees with `LanguageName`
      on every code except the names of `Object.prototype` members. */
  function LanguageNameAsWritten(lang: string): (r: PropertyValue)
    ensures lang !in ObjectPrototypeMembers ==> r == StringValue(LanguageName(lang))
    ensures lang in ObjectPrototypeMembers ==> r == InheritedMember(lang)
  {
    var v :=
      if lang in LanguageNames then StringValue(LanguageNames[lang])
      else if lang in ObjectPrototypeMembers then InheritedMember(lang)
      else Undefined;
    if Truthy(v) then v else StringValue("English")
  }

  /** The code "toString" is not in the table, yet the lookup as written
      yields the inherited `toString` function rather than "English". */
  lemma LanguageNameAsWrittenLeaksPrototype()
    ensures LanguageNameAsWritten("toString") == InheritedMember("toString")
    ensures LanguageName("toString") == "English"
  {
  }

  // ---------------------------------------------------------------------
  // Conversation contents
  // ---------------------------------------------------------------------

  /** One turn of caller-supplied history: `{role, content}`. */
  datatype HistoryEntry = HistoryEntry(role: Role, content: string)

  /** The roles of the hosted API: 'user' and 'model'. */
  datatype Speaker = UserSpeaker | ModelSpeaker

  /** One element of `contents`: a role with a single text part. */
  datatype Content = Content(role: Speaker, text: string)

  function SpeakerOf(role: Role): Speaker {
    if role == Assistant then ModelSpeaker else UserSpeaker
  }

  function RoleOf(speaker: Speaker): Role {
    if speaker == ModelSpeaker then Assistant else User
  }

  /** `history.map(h => ({role: ..., parts: [{text: h.content}]}))`. */
  function HistoryTurns(history: seq<HistoryEntry>): (turns: seq<Content>)
    ensures |turns| == |history|
    ensures forall i :: 0 <= i < |history| ==>
              turns[i].text == history[i].content
              && (turns[i].role == ModelSpeaker <==> history[i].role == Assistant)
  {
    if history == [] then []
    else [Content(SpeakerOf(history[0].role), history[0].content)] + HistoryTurns(history[1..])
  }

  /** The inverse reading of turns as history. */
  function TurnsHistory(turns: seq<Content>): seq<HistoryEntry>
  {
    if turns == [] then []
    else [HistoryEntry(RoleOf(turns[0].role), turns[0].text)] + TurnsHistory(turns[1..])
  }

  /** The `contents` sent by `askAssistant` and `askProfileAssistant`: the
      history in order, assistant turns as 'model' turns, then the query as
      the last 'user' turn. */
  function Contents(history: seq<HistoryEntry>, query: string): (contents: seq<Content>)
    ensures |contents| == |history| + 1
    ensures forall i :: 0 <= i < |history| ==>
              contents[i].text == history[i].content
              && (contents[i].role == ModelSpeaker <==> history[i].role == Assistant)
              && (contents[i].role == UserSpeaker <==> history[i].role == User)
    ensures contents[|history|] == Content(UserSpeaker, query)
  {
    HistoryTurns(history) + [Content(UserSpeaker, query)]
  }

  /** Nothing is lost in the mapping: the history and the query can be read
      back from the contents. */
  lemma {:induction false} ContentsRoundTrip(history: seq<HistoryEntry>, query: string)
    ensures TurnsHistory(Contents(history, query)[..|history|]) == history
    ensures Contents(history, query)[|history|].text == query
  {
    var contents := Contents(history, query);
    assert contents[..|history|] == HistoryTurns(history);
    TurnsHistoryInverse(history);
  }

  lemma {:induction false} TurnsHistoryInverse(history: seq<HistoryEntry>)
    ensures TurnsHistory(HistoryTurns(history)) == history
  {
    if history != [] {
      TurnsHistoryInverse(history[1..]);
      var turns := HistoryTurns(history);
      assert turns[1..] == HistoryTurns(history[1..]);
      assert [history[0]] + history[1..] == history;
    }
  }

  /** What a chat call sends: the contents, the language its system
      instruction names, and whether web search grounding is enabled. */
  datatype Request = Request(contents: seq<Content>, languageName: string, webSearch: bool)

  /** `askAssistant`: grounded in web search; the turns are `Contents`
      (which `ContentsRoundTrip` shows lose nothing), the query last. The
      language is the one `LanguageName` gives, the corrected lookup. */
  function AssistantRequest(query: string, history: seq<HistoryEntry>, lang: string): (r: Request)
    ensures r.webSearch
    ensures |r.contents| == |history| + 1
    ensures r.contents == Contents(history, query)
    ensures r.contents[|history|] == Content(UserSpeaker, query)
    ensures r.languageName == LanguageName(lang)
  {
    Request(Contents(history, query), LanguageName(lang), true)
  }

  /** `askProfileAssistant`: the same turns, no tools. */
  function ProfileAssistantRequest(query: string, history: seq<HistoryEntry>, lang: string): (r: Request)
    ensures !r.webSearch
    ensures |r.contents| == |history| + 1
    ensures r.contents == Contents(history, query)
    ensures r.contents[|history|] == Content(UserSpeaker, query)
    ensures r.languageName == LanguageName(lang)
  {
    Request(Contents(history, query), LanguageName(lang), false)
  }

  // ---------------------------------------------------------------------
  // Grounding citations
  // ---------------------------------------------------------------------

  datatype WebSource = WebSource(uri: Option<string>)

  datatype GroundingChunk = GroundingChunk(web: Option<WebSource>)

  /** The model's reply: its text (absent when the model produced none) and
      the grounding chunks of the first candidate (absent when any link of
      `candidates?.[0]?.groundingMetadata?.groundingChunks` is missing). */
  datatype Reply = Reply(text: Option<string>, groundingChunks: Option<seq<GroundingChunk>>)

  /** `chunk.web && chunk.web.uri`: the chunk has a web entry whose uri is a
      non-empty string. */
  predicate Cites(chunk: GroundingChunk) {
    chunk.web.Some? && chunk.web.value.uri.Some? && chunk.web.value.uri.value != ""
  }

  function UriOf(chunk: GroundingChunk): string
    requires Cites(chunk)
  {
    chunk.web.value.uri.value
  }

  /** The `filter` and `map` steps: the uri of every citing chunk, in chunk
      order, duplicates kept. */
  function CitedUris(chunks: seq<GroundingChunk>): (uris: seq<string>)
    ensures |uris| <= |chunks|
    ensures forall i :: 0 <= i < |uris| ==> uris[i] != ""
    ensures forall u :: u in uris <==>
              exists i :: 0 <= i < |chunks| && Cites(chunks[i]) && UriOf(chunks[i]) == u
  {
    if chunks == [] then []
    else
      var rest := CitedUris(chunks[1..]);
      assert forall i :: 0 < i < |chunks| ==> chunks[i] == chunks[1..][i - 1];
      if Cites(chunks[0]) then [UriOf(chunks[0])] + rest else rest
  }

  /** The index of the first chunk that cites `u`. */
  function FirstCitation(chunks: seq<GroundingChunk>, u: string): (i: nat)
    requires u in CitedUris(chunks)
    ensures i < |chunks| && Cites(chunks[i]) && UriOf(chunks[i]) == u
    ensures forall j :: 0 <= j < i ==> !(Cites(chunks[j]) && UriOf(chunks[j]) == u)
  {
    if Cites(chunks[0]) && UriOf(chunks[0]) == u then 0
    else 1 + FirstCitation(chunks[1..], u)
  }

  /** Putting an element in front shifts the first index of every other
      element by one. */
  lemma FirstIndexCons(w: string, rest: seq<string>, u: string)
    requires u in rest && u != w
    ensures FirstIndex([w] + rest, u) == 1 + FirstIndex(rest, u)
  {
    var k := FirstIndex(rest, u);
    assert ([w] + rest)[..1 + k] == [w] + rest[..k];
    FirstIndexIs([w] + rest, u, 1 + k);
  }

  /** The order of first occurrences in `CitedUris` is the order of first
      citations among the chunks. */
  lemma {:induction false} FirstIndexFollowsChunks(chunks: seq<GroundingChunk>, u: string, v: string)
    requires u in CitedUris(chunks) && v in CitedUris(chunks)
    ensures FirstIndex(CitedUris(chunks), u) < FirstIndex(CitedUris(chunks), v)
            <==> FirstCitation(chunks, u) < FirstCitation(chunks, v)
  {
    var uris := CitedUris(chunks);
    var rest := CitedUris(chunks[1..]);
    if !Cites(chunks[0]) {
      assert uris == rest;
      FirstIndexFollowsChunks(chunks[1..], u, v);
    } else {
      var w := UriOf(chunks[0]);
      assert uris == [w] + rest;
      if u == w || v == w {
        assert uris[0] == w;
      } else {
        assert u in rest && v in rest;
        FirstIndexFollowsChunks(chunks[1..], u, v);
        FirstIndexCons(w, rest, u);
        FirstIndexCons(w, rest, v);
      }
    }
  }

  /** The URL list of `askAssistant`: `Array.from(new Set(...))` over the
      cited uris. Each cited uri appears exactly once, and nothing else. */
  function SourceUrls(chunks: seq<GroundingChunk>): (urls: seq<string>)
    ensures NoDuplicates(urls)
    ensures forall i :: 0 <= i < |urls| ==> urls[i] != ""
    ensures forall u :: u in urls <==>
              exists i :: 0 <= i < |chunks| && Cites(chunks[i]) && UriOf(chunks[i]) == u
  {
    var urls := Distinct(CitedUris(chunks));
    assert forall i :: 0 <= i < |urls| ==> urls[i] in CitedUris(chunks);
    urls
  }

  /** The URLs are listed in the order of their first citation. */
  lemma SourceUrlsFirstSeenOrder(chunks: seq<GroundingChunk>)
    ensures forall p, q :: 0 <= p < q < |SourceUrls(chunks)| ==>
              FirstCitation(chunks, SourceUrls(chunks)[p]) < FirstCitation(chunks, SourceUrls(chunks)[q])
  {
    var uris := CitedUris(chunks);
    var urls := SourceUrls(chunks);
    DistinctFirstSeenOrder(uris);
    forall p, q | 0 <= p < q < |urls|
      ensures FirstCitation(chunks, urls[p]) < FirstCitation(chunks, urls[q])
    {
      FirstIndexFollowsChunks(chunks, urls[p], urls[q]);
    }
  }

  const SourcesTitle: string := "**Official Sources:**"

  /** "\n\n**Official Sources:**\n" */
  const SourcesHeading: string := "\n\n" + SourcesTitle + "\n"

  /** The markdown line for one URL. */
  function SourceLine(url: string): string {
    "- [" + url + "](" + url + ")"
  }

  function SourceLines(urls: seq<string>): (lines: seq<string>)
    ensures |lines| == |urls|
    ensures forall i :: 0 <= i < |urls| ==> lines[i] == SourceLine(urls[i])
  {
    if urls == [] then [] else [SourceLine(urls[0])] + SourceLines(urls[1..])
  }

  /** `links`: empty when no chunk is present or none cites a uri, otherwise
      the heading followed by one line per URL joined by newlines. */
  function SourcesBlock(chunks: seq<GroundingChunk>): (links: string)
    ensures SourceUrls(chunks) == [] ==> links == ""
    ensures SourceUrls(chunks) != [] ==>
              links == SourcesHeading + Join(SourceLines(SourceUrls(chunks)), "\n")
  {
    if |chunks| > 0 then
      var urls := SourceUrls(chunks);
      if |urls| > 0 then SourcesHeading + Join(SourceLines(urls), "\n") else ""
    else ""
  }

  /** A line of the block holds a newline only if its URL does. */
  lemma SourceLineHasNoNewline(url: string)
    requires '\n' !in url
    ensures '\n' !in SourceLine(url)
    ensures SourceLine(url)[|SourceLine(url)| - 1] == ')'
  {
    var line := SourceLine(url);
    forall i | 0 <= i < |line| ensures line[i] != '\n' {
      if i < 3 {
        assert line[i] == "- ["[i];
      } else if i < 3 + |url| {
        assert line[i] == url[i - 3];
      } else if i < 5 + |url| {
        assert line[i] == "]("[i - 3 - |url|];
      } else if i < 5 + 2 * |url| {
        assert line[i] == url[i - 5 - |url|];
      }
    }
  }

  lemma SourcesTitleHasNoNewline()
    ensures '\n' !in SourcesTitle
  {
    forall i | 0 <= i < |SourcesTitle| ensures SourcesTitle[i] != '\n' {
    }
  }

  /** The heading contributes two empty lines and the title line. */
  lemma HeadingLines(body: string)
    ensures Split(SourcesHeading + body, '\n') == ["", "", SourcesTitle] + Split(body, '\n')
  {
    var inner := SourcesTitle + "\n" + body;
    var mid := "\n" + inner;
    SourcesTitleHasNoNewline();
    SplitAtSeparator(SourcesTitle, '\n', body);
    SplitAfterSeparator(inner, '\n');
    SplitAfterSeparator(mid, '\n');
    assert "\n\n" == "\n" + "\n";
    assert SourcesHeading + body == "\n" + mid;
  }

  /** Read line by line, a non-empty sources block is two blank lines, the
      heading, then exactly one `- [u](u)` line per URL in order; its last
      line is the last URL's, so it does not end in a newline. */
  lemma SourcesBlockLines(chunks: seq<GroundingChunk>)
    requires forall i :: 0 <= i < |chunks| && Cites(chunks[i]) ==> '\n' !in UriOf(chunks[i])
    requires SourceUrls(chunks) != []
    ensures Split(SourcesBlock(chunks), '\n')
            == ["", "", SourcesTitle] + SourceLines(SourceUrls(chunks))
    ensures SourcesBlock(chunks)[|SourcesBlock(chunks)| - 1] == ')'
  {
    var urls := SourceUrls(chunks);
    var lines := SourceLines(urls);
    var body := Join(lines, "\n");
    forall i | 0 <= i < |lines| ensures '\n' !in lines[i] {
      assert urls[i] in urls;
      SourceLineHasNoNewline(urls[i]);
    }
    SplitJoin(lines, '\n');
    HeadingLines(body);
    JoinEndsWithLast(lines, "\n");
    SourceLineHasNoNewline(urls[|urls| - 1]);
    var last := lines[|lines| - 1];
    assert body[|body| - 1] == last[|last| - 1];
  }

  /** `askAssistant`'s result as written: `response.text + links`, where an
      absent text is converted to the string "undefined". */
  function AssistantAnswerAsWritten(reply: Reply): (answer: string)
    ensures reply.text.Some? ==> answer == reply.text.value + SourcesBlock(reply.groundingChunks.GetOr([]))
    ensures reply.text.None? ==> answer == "undefined" + SourcesBlock(reply.groundingChunks.GetOr([]))
  {
    var text := if reply.text.Some? then reply.text.value else "undefined";
    text + SourcesBlock(reply.groundingChunks.GetOr([]))
  }

  /** The answer shown for an absent text is "undefined" (with no sources). */
  lemma AssistantAnswerAsWrittenUndefined()
    ensures AssistantAnswerAsWritten(Reply(None, None)) == "undefined"
  {
  }

  /** `askAssistant`'s result with an absent text read as empty: the reply
      text, unchanged when no URL survives, otherwise followed by the
      sources block. */
  function AssistantAnswer(reply: Reply): (answer: string)
    ensures SourceUrls(reply.groundingChunks.GetOr([])) == [] ==> answer == reply.text.GetOr("")
    ensures SourceUrls(reply.groundingChunks.GetOr([])) != [] ==>
              answer == reply.text.GetOr("") + SourcesHeading
                        + Join(SourceLines(SourceUrls(reply.groundingChunks.GetOr([]))), "\n")
    ensures reply.text.Some? ==> answer == AssistantAnswerAsWritten(reply)
  {
    reply.text.GetOr("") + SourcesBlock(reply.groundingChunks.GetOr([]))
  }

  /** A chunk citing `u`. */
  function WebChunk(u: string): GroundingChunk {
    GroundingChunk(Some(WebSource(Some(u))))
  }

  lemma CitedThree(x: string, y: string)
    requires x != "" && y != ""
    ensures CitedUris([WebChunk(x), WebChunk(y), WebChunk(x)]) == [x, y, x]
  {
    var chunks := [WebChunk(x), WebChunk(y), WebChunk(x)];
    assert chunks[1..] == [WebChunk(y), WebChunk(x)];
    assert chunks[1..][1..] == [WebChunk(x)];
    assert CitedUris([WebChunk(x)]) == [x];
  }

  lemma DistinctOfXYX(x: string, y: string)
    requires x != y
    ensures Distinct([x, y, x]) == [x, y]
  {
    assert [x, y, x][..2] == [x, y];
    assert [x, y][..1] == [x];
    assert [x][..0] == [];
    assert Distinct([x]) == [x];
  }

  /** Three citations of which the first and the last are the same site
      yield two URLs, in first-seen order. */
  lemma TwoDistinctSources()
    ensures SourceUrls([WebChunk("https://x.gov.in"), WebChunk("https://y.nic.in"), WebChunk("https://x.gov.in")])
            == ["https://x.gov.in", "https://y.nic.in"]
  {
    var x, y := "https://x.gov.in", "https://y.nic.in";
    assert x != y by { assert x[8] != y[8]; }
    CitedThree(x, y);
    DistinctOfXYX(x, y);
  }

  // ---------------------------------------------------------------------
  // Response decoding
  // ---------------------------------------------------------------------

  /** A JSON value as `JSON.parse` produces it. */
  datatype Json =
    | JNull
    | JBool(b: bool)
    | JNumber(n: real)
    | JString(s: string)
    | JArray(items: seq<Json>)
    | JObject(fields: map<string, Json>)

  /** `JSON.parse` throwing. */
  datatype ParseError = SyntaxError

  /** `JSON.parse` itself is not modelled: decoders take it as a parameter,
      `None` standing for a thrown `SyntaxError`. */
  type Parser = string -> Option<Json>

  /** What every JSON parser does with the two default texts. */
  predicate ParsesEmptyLiterals(parse: Parser) {
    parse("[]") == Some(JArray([])) && parse("{}") == Some(JObject(map[]))
  }

  /** The calls whose reply text is decoded as JSON. */
  datatype Decoder =
    | FindEligibleSchemes
    | ExtractProfileFromImage
    | ParseGenericDraft
    | FetchServiceInfo
    | PredictRejectionRisk
    | AnalyzeForm
    | ClassifyQuery

  /** `response.text || fallback`: an absent or empty text becomes the
      fallback. */
  function TextOr(text: Option<string>, fallback: string): (r: string)
    ensures (text == None || text == Some("")) ==> r == fallback
    ensures text.Some? && text.value != "" ==> r == text.value
  {
    if text.Some? && text.value != "" then text.value else fallback
  }

  /** The text a decoder parses when the reply has none. */
  function EmptyText(d: Decoder): string {
    if d == FindEligibleSchemes then "[]" else "{}"
  }

  function EmptyValue(d: Decoder): Json {
    if d == FindEligibleSchemes then JArray([]) else JObject(map[])
  }

  /** The decoding step of each call: the reply text, or its empty default,
      goes through `JSON.parse`; the value is returned as it is, with no
      check against the declared schema. Only `extractProfileFromImage`
      catches a parse failure (and returns `{}`); the others let it reach
      their caller. */
  function Decode(d: Decoder, text: Option<string>, parse: Parser): (r: Result<Json, ParseError>)
    requires ParsesEmptyLiterals(parse)
    ensures (text == None || text == Some("")) ==> r == Ok(EmptyValue(d))
    ensures text.Some? && text.value != "" && parse(text.value).Some? ==> r == Ok(parse(text.value).value)
    ensures text.Some? && text.value != "" && parse(text.value).None? ==>
              if d == ExtractProfileFromImage then r == Ok(JObject(map[])) else r == Err(SyntaxError)
    ensures r.Err? ==> d != ExtractProfileFromImage
  {
    var raw := TextOr(text, EmptyText(d));
    match parse(raw)
    case Some(v) => Ok(v)
    case None => if d == ExtractProfileFromImage then Ok(JObject(map[])) else Err(SyntaxError)
  }

  /** `extractTextFromImage`: `response.text || ""`. */
  function ExtractTextFromImageResult(text: Option<string>): (r: string)
    ensures r == "" <==> (text == None || text == Some(""))
    ensures r != "" ==> text == Some(r)
  {
    TextOr(text, "")
  }
}
