/** The identity vault screen (components/IdentityProfile.tsx): a chat with
    the profile assistant, a profile filled in from uploaded identity
    documents, and the list of digitised documents. Each handler receives
    the remote reply (or the failure) as a parameter and runs to the end;
    clock readings are parameters too. */
module IdentityProfileScreen {
  import opened Types
  import opened JsRuntime
  import opened GeminiService

  /** An entry of the digitised-documents list. */
  datatype Doc = Doc(name: string, kind: string, date: string, icon: string)

  const WelcomeText: string :=
    "Welcome to your Identity Vault. I help you securely manage documents and digital ID.\n\nUpload any document for magic digitization!"

  const DigitizedText: string := "\U{2728} Digitization complete. I've updated your vault."

  const InitialProfile: UserProfile := UserProfile(
    Some("Sandeep Kumar"), Some("12/05/1990"), Some("Male"), Some("Delhi"),
    Some("New Delhi"), Some("XXXX-XXXX-8841"), Some(true))

  const InitialDocs: seq<Doc> := [
    Doc("Passport Copy", "Identity", "20 Sep 2024", "\U{1F6C2}"),
    Doc("Rent Agreement", "Address", "15 Aug 2024", "\U{1F3E0}")
  ]

  /** The entry added for an uploaded file. */
  function UploadedDoc(fileName: string): Doc {
    Doc(fileName, "Digitalized", "Today", "\U{1F4C4}")
  }

  /** `messages.map(m => ({role: m.role, content: m.content}))`. */
  function Project(messages: seq<Message>): (history: seq<HistoryEntry>)
    ensures |history| == |messages|
    ensures forall i :: 0 <= i < |messages| ==>
              history[i] == HistoryEntry(messages[i].role, messages[i].content)
  {
    if messages == [] then []
    else [HistoryEntry(messages[0].role, messages[0].content)] + Project(messages[1..])
  }

  /** `response || "..."`: an absent or empty reply is shown as "...". */
  function ReplyText(response: Option<string>): (content: string)
    ensures content != ""
    ensures response.Some? && response.value != "" ==> content == response.value
    ensures (response == None || response == Some("")) ==> content == "..."
  {
    TextOr(response, "...")
  }

  /** One field of `{...prev, ...extracted}`: a present field wins. */
  function Override<T>(previous: Option<T>, extracted: Option<T>): Option<T> {
    if extracted.Some? then extracted else previous
  }

  /** `{...prev, ...extracted, hasDocument: true}`. */
  function MergeProfile(prev: UserProfile, extracted: UserProfile): (p: UserProfile)
    ensures p.hasDocument == Some(true)
    ensures extracted.fullName.Some? ==> p.fullName == extracted.fullName
    ensures extracted.fullName.None? ==> p.fullName == prev.fullName
    ensures extracted.dateOfBirth.Some? ==> p.dateOfBirth == extracted.dateOfBirth
    ensures extracted.dateOfBirth.None? ==> p.dateOfBirth == prev.dateOfBirth
    ensures extracted.gender.Some? ==> p.gender == extracted.gender
    ensures extracted.gender.None? ==> p.gender == prev.gender
    ensures extracted.state.Some? ==> p.state == extracted.state
    ensures extracted.state.None? ==> p.state == prev.state
    ensures extracted.district.Some? ==> p.district == extracted.district
    ensures extracted.district.None? ==> p.district == prev.district
    ensures extracted.aadhaarMasked.Some? ==> p.aadhaarMasked == extracted.aadhaarMasked
    ensures extracted.aadhaarMasked.None? ==> p.aadhaarMasked == prev.aadhaarMasked
  {
    UserProfile(
      Override(prev.fullName, extracted.fullName),
      Override(prev.dateOfBirth, extracted.dateOfBirth),
      Override(prev.gender, extracted.gender),
      Override(prev.state, extracted.state),
      Override(prev.district, extracted.district),
      Override(prev.aadhaarMasked, extracted.aadhaarMasked),
      Some(true))
  }

  /** Merging the same extraction twice changes nothing more. */
  lemma MergeProfileIdempotent(prev: UserProfile, extracted: UserProfile)
    ensures MergeProfile(MergeProfile(prev, extracted), extracted) == MergeProfile(prev, extracted)
  {
  }

  /** An extraction with no field (`{}`, what a parse failure yields) only
      marks the profile as backed by a document. */
  lemma MergeEmptyExtraction(prev: UserProfile)
    ensures MergeProfile(prev, EmptyProfile) == prev.(hasDocument := Some(true))
  {
  }

  /** `dataUrl.split(',')[1]`: the text between the first comma and the
      next one (or the end); absent (`undefined`) when there is no comma. */
  function Base64Payload(dataUrl: string): (payload: Option<string>)
    ensures payload.Some? <==> ',' in dataUrl
    ensures payload.Some? ==> ',' !in payload.value
  {
    var fields := Split(dataUrl, ',');
    JoinSplit(dataUrl, ',');
    if |fields| > 1 then Some(fields[1])
    else
      assert Join(fields, ",") == fields[0];
      None
  }

  /** For a data URL `header,data` (base64 data has no comma) the payload is
      the data, and it stays the same whatever follows a further comma. */
  lemma Base64PayloadOfDataUrl(header: string, data: string, rest: Option<string>)
    requires ',' !in header && ',' !in data
    ensures Base64Payload(header + "," + data + (if rest.Some? then "," + rest.value else "")) == Some(data)
  {
    var tail := data + (if rest.Some? then "," + rest.value else "");
    assert header + "," + data + (if rest.Some? then "," + rest.value else "") == header + [','] + tail;
    SplitAtSeparator(header, ',', tail);
    if rest.Some? {
      assert tail == data + [','] + rest.value;
      SplitAtSeparator(data, ',', rest.value);
    } else {
      assert tail == data;
      SplitWithoutSeparator(data, ',');
    }
  }

  /** The message added for a sent text. */
  function UserMessage(text: string, sentAt: nat): Message {
    Message(Decimal(sentAt), User, text, sentAt)
  }

  /** The assistant message added after a successful call (none after a
      failure). */
  function AnswerMessages(reply: Result<Option<string>, Failure>, repliedAt: nat): (added: seq<Message>)
    ensures reply.Err? ==> added == []
    ensures reply.Ok? ==> |added| == 1 && added[0].role == Assistant && added[0].content == ReplyText(reply.value)
  {
    if reply.Ok? then [Message(Decimal(repliedAt + 1), Assistant, ReplyText(reply.value), repliedAt)] else []
  }

  class IdentityProfile {
    /** The `language` prop. */
    const language: string
    var profile: UserProfile
    var messages: seq<Message>
    var docs: seq<Doc>
    var input: string
    var isLoading: bool
    var isUploading: bool

    /** The initial state: the sample profile, the welcome message, two
        sample documents and an empty input. */
    constructor (language: string, now: nat)
      ensures this.language == language
      ensures profile == InitialProfile && docs == InitialDocs
      ensures messages == [Message("1", Assistant, WelcomeText, now)]
      ensures input == "" && !isLoading && !isUploading
    {
      this.language := language;
      profile := InitialProfile;
      messages := [Message("1", Assistant, WelcomeText, now)];
      docs := InitialDocs;
      input := "";
      isLoading := false;
      isUploading := false;
    }

    /** `handleSend(text)`. A blank text, or a send while a request is in
        flight, changes nothing. Otherwise the user message is appended, the
        input cleared, the profile assistant asked with the log as it was
        before that message, and on success its reply appended; loading is
        over at the end either way. `sentAt` and `repliedAt` are the clock
        readings taken for the two messages. The guard `!text.trim()` is
        written `AllWhitespace(text)`, which `Trim`'s contract shows to be
        the same test. */
    method HandleSend(text: string, reply: Result<Option<string>, Failure>, sentAt: nat, repliedAt: nat)
      returns (request: Option<Request>)
      modifies this
      ensures AllWhitespace(text) || old(isLoading) ==> unchanged(this) && request == None
      ensures !AllWhitespace(text) && !old(isLoading) ==>
                && request == Some(ProfileAssistantRequest(text, Project(old(messages)), language))
                && messages == old(messages) + [UserMessage(text, sentAt)] + AnswerMessages(reply, repliedAt)
                && input == "" && !isLoading
                && profile == old(profile) && docs == old(docs) && isUploading == old(isUploading)
    {
      if AllWhitespace(text) || isLoading {
        return None;
      }
      request := Some(ProfileAssistantRequest(text, Project(messages), language));
      messages := messages + [UserMessage(text, sentAt)];
      input := "";
      isLoading := true;
      messages := messages + AnswerMessages(reply, repliedAt);
      isLoading := false;
    }

    /** The input field's `onChange`: `setInput(value)`. */
    method SetInput(value: string)
      modifies this
      ensures input == value
      ensures profile == old(profile) && messages == old(messages) && docs == old(docs)
      ensures isLoading == old(isLoading) && isUploading == old(isUploading)
    {
      input := value;
    }

    /** Enter in the input field: `handleSend()`, whose text defaults to the
        current input. */
    method Send(reply: Result<Option<string>, Failure>, sentAt: nat, repliedAt: nat)
      returns (request: Option<Request>)
      modifies this
      ensures AllWhitespace(old(input)) || old(isLoading) ==> unchanged(this) && request == None
      ensures !AllWhitespace(old(input)) && !old(isLoading) ==>
                && request == Some(ProfileAssistantRequest(old(input), Project(old(messages)), language))
                && messages == old(messages) + [UserMessage(old(input), sentAt)] + AnswerMessages(reply, repliedAt)
                && input == "" && !isLoading
                && profile == old(profile) && docs == old(docs) && isUploading == old(isUploading)
    {
      request := HandleSend(input, reply, sentAt, repliedAt);
    }

    /** `handleFileUpload`: with no file selected nothing changes. Otherwise
        the base64 payload of the file's data URL is sent for extraction; on
        success the extracted fields are merged into the profile, the file
        is put first in the documents list and a confirmation message is
        appended. Uploading is over at the end either way. */
    method HandleFileUpload(fileName: Option<string>, dataUrl: string,
                            extracted: Result<UserProfile, Failure>, now: nat)
      returns (payload: Option<Option<string>>)
      modifies this
      ensures fileName.None? ==> unchanged(this) && payload == None
      ensures fileName.Some? ==>
                && payload == Some(Base64Payload(dataUrl))
                && !isUploading
                && profile == (if extracted.Ok? then MergeProfile(old(profile), extracted.value) else old(profile))
                && docs == (if extracted.Ok? then [UploadedDoc(fileName.value)] + old(docs) else old(docs))
                && messages == old(messages)
                               + (if extracted.Ok? then [Message(Decimal(now), Assistant, DigitizedText, now)] else [])
                && input == old(input) && isLoading == old(isLoading)
    {
      if fileName.None? {
        return None;
      }
      isUploading := true;
      var base64 := Base64Payload(dataUrl);
      payload := Some(base64);
      match extracted {
        case Ok(fields) =>
          profile := MergeProfile(profile, fields);
          docs := [UploadedDoc(fileName.value)] + docs;
          messages := messages + [Message(Decimal(now), Assistant, DigitizedText, now)];
        case Err(_) =>
      }
      isUploading := false;
    }
  }

  /** What the assistant is sent: one turn per earlier message, in order,
      with assistant messages as model turns, then the new text as the last
      user turn. */
  lemma SentContents(messages: seq<Message>, text: string, language: string)
    ensures var contents := ProfileAssistantRequest(text, Project(messages), language).contents;
            && |contents| == |messages| + 1
            && (forall i :: 0 <= i < |messages| ==>
                  contents[i].text == messages[i].content
                  && (contents[i].role == ModelSpeaker <==> messages[i].role == Assistant))
            && contents[|messages|] == Content(UserSpeaker, text)
  {
  }
}
