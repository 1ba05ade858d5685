/**
 * The outgoing request of `OpenRouterAPIThread.run`: the conversation is
 * turned into the provider's `messages` array, attachments are merged into a
 * final user message only, and the payload adds the fixed generation settings.
 */
module Request {
  import opened Attachment

  datatype Role = User | Assistant | System

  /** One entry of the conversation history: `{'role': ..., 'content': ...}`. */
  datatype Message = Message(role: Role, content: string)

  /** A part of a multi-part content: `{type: "text"}` or `{type: "image_url"}`. */
  datatype Part = TextPart(text: string) | ImageUrlPart(url: string)

  /** A provider message's content: a plain string or a list of parts. */
  datatype Content = Plain(text: string) | Parts(parts: seq<Part>)

  datatype ApiMessage = ApiMessage(role: Role, content: Content)

  /** The JSON body posted to the provider. */
  datatype Payload = Payload(model: string, messages: seq<ApiMessage>, maxTokens: nat, temperature: real)

  const MaxTokens: nat := 2000
  const Temperature: real := 0.7

  /**
   * The base64 text of an attachment as the client reads it, wholly outside
   * this model; the empty string stands for a failure to read the file.
   */
  type Encoder = AttachedFile -> string

  /** `data:<mime>;base64,<payload>` */
  function DataUri(mime: string, payload: string): (r: string)
    ensures |r| == 13 + |mime| + |payload|
  {
    "data:" + mime + ";base64," + payload
  }

  /** The URI is the `data:` scheme, then the media type, then `;base64,` and the payload. */
  lemma DataUriFields(mime: string, payload: string)
    ensures var r := DataUri(mime, payload);
      r[..5] == "data:" && r[5..5 + |mime|] == mime
      && r[5 + |mime|..13 + |mime|] == ";base64," && r[13 + |mime|..] == payload
  {
    var r := DataUri(mime, payload);
    assert r == "data:" + (mime + (";base64," + payload));
  }

  /** The part one attachment contributes: an image whose encoding is non-empty gives one. */
  function ImagePart(f: AttachedFile, encode: Encoder): seq<Part>
  {
    if f.IsImage() && encode(f) != "" then [ImageUrlPart(DataUri(f.mime, encode(f)))] else []
  }

  /** The image parts of a list of attachments, in attachment order. */
  function ImageParts(files: seq<AttachedFile>, encode: Encoder): (r: seq<Part>)
    ensures |r| <= |files|
    ensures forall k :: 0 <= k < |r| ==> r[k].ImageUrlPart?
  {
    if files == [] then [] else ImagePart(files[0], encode) + ImageParts(files[1..], encode)
  }

  /** The attachments that end up in the request: images whose encoding succeeded. */
  function EncodedImages(files: seq<AttachedFile>, encode: Encoder): (r: seq<AttachedFile>)
    ensures |r| <= |files|
    ensures forall f :: f in r ==> f in files && f.IsImage() && encode(f) != ""
  {
    if files == [] then []
    else if files[0].IsImage() && encode(files[0]) != "" then [files[0]] + EncodedImages(files[1..], encode)
    else EncodedImages(files[1..], encode)
  }

  /** The leading text part, present only when the text is non-empty. */
  function TextParts(text: string): (r: seq<Part>)
    ensures |r| <= 1 && (r == [] <==> text == "")
    ensures forall p :: p in r ==> p == TextPart(text)
  {
    if text != "" then [TextPart(text)] else []
  }

  /** The parts list built for the final user message. */
  function ContentParts(text: string, files: seq<AttachedFile>, encode: Encoder): (r: seq<Part>)
    ensures |r| == |TextParts(text)| + |EncodedImages(files, encode)|
    ensures forall k :: |TextParts(text)| <= k < |r| ==> r[k].ImageUrlPart?
  {
    ImagePartsMatchEncodedImages(files, encode);
    TextParts(text) + ImageParts(files, encode)
  }

  /** A list of at least two parts is sent as such; otherwise the original text is. */
  function ChooseContent(text: string, parts: seq<Part>): (c: Content)
    ensures c.Parts? <==> |parts| > 1
    ensures c.Parts? ==> c.parts == parts
    ensures c.Plain? ==> c.text == text
  {
    if |parts| > 1 then Parts(parts) else Plain(text)
  }

  /** Whether entry `i` is the final message and a user message. */
  predicate IsFinalUser(messages: seq<Message>, i: nat)
    requires i < |messages|
  {
    messages[i].role == User && i == |messages| - 1
  }

  /** The provider message for entry `i` of the history. */
  function ProviderMessage(messages: seq<Message>, i: nat, files: seq<AttachedFile>, encode: Encoder): (r: ApiMessage)
    requires i < |messages|
    ensures r.role == messages[i].role
    ensures !IsFinalUser(messages, i) ==> r.content == Plain(messages[i].content)
    ensures r.content.Parts? ==> IsFinalUser(messages, i) && |r.content.parts| > 1
  {
    var m := messages[i];
    if IsFinalUser(messages, i) then ApiMessage(m.role, ChooseContent(m.content, ContentParts(m.content, files, encode)))
    else ApiMessage(m.role, Plain(m.content))
  }

  /** The provider messages for the whole history, entry by entry. */
  function ProviderMessages(messages: seq<Message>, files: seq<AttachedFile>, encode: Encoder): (r: seq<ApiMessage>)
    ensures |r| == |messages|
    ensures forall i :: 0 <= i < |messages| ==> r[i].role == messages[i].role
  {
    seq(|messages|, i requires 0 <= i < |messages| => ProviderMessage(messages, i, files, encode))
  }

  /** The payload `{model, messages, max_tokens: 2000, temperature: 0.7}`. */
  function RequestPayload(model: string, messages: seq<Message>, files: seq<AttachedFile>, encode: Encoder): (p: Payload)
    ensures p.model == model && p.maxTokens == MaxTokens && p.temperature == Temperature
    ensures |p.messages| == |messages|
  {
    Payload(model, ProviderMessages(messages, files, encode), MaxTokens, Temperature)
  }

  /** One more attachment adds its own part, if any. */
  lemma ImagePartsStep(files: seq<AttachedFile>, j: nat, encode: Encoder)
    requires j < |files|
    ensures ImageParts(files[..j + 1], encode) == ImageParts(files[..j], encode) + ImagePart(files[j], encode)
  {
    assert files[..j + 1] == files[..j] + [files[j]];
    ImagePartsAppend(files[..j], [files[j]], encode);
    assert [files[j]][1..] == [];
  }

  /** The parts loop of `run` for the final user message. */
  method BuildContentParts(text: string, files: seq<AttachedFile>, encode: Encoder) returns (content: seq<Part>)
    ensures content == ContentParts(text, files, encode)
  {
    content := [];
    if text != "" {
      content := content + [TextPart(text)];
    }
    for j := 0 to |files|
      invariant content == TextParts(text) + ImageParts(files[..j], encode)
    {
      var f := files[j];
      ImagePartsStep(files, j, encode);
      ghost var before := content;
      if f.IsImage() {
        var payload := encode(f);
        if payload != "" {
          content := content + [ImageUrlPart(DataUri(f.mime, payload))];
        }
      }
      assert content == before + ImagePart(f, encode);
    }
    assert files[..|files|] == files;
  }

  /**
   * The message loop of `run`: every history entry gives one provider
   * message with the same role, and only a final user message gets the
   * attachments.
   */
  method BuildApiMessages(messages: seq<Message>, files: seq<AttachedFile>, encode: Encoder) returns (api: seq<ApiMessage>)
    ensures api == ProviderMessages(messages, files, encode)
    ensures |api| == |messages|
    ensures forall i :: 0 <= i < |messages| ==> api[i].role == messages[i].role
    ensures forall i :: 0 <= i < |messages| && !IsFinalUser(messages, i) ==> api[i].content == Plain(messages[i].content)
  {
    api := [];
    for i := 0 to |messages|
      invariant |api| == i
      invariant forall k :: 0 <= k < i ==> api[k] == ProviderMessage(messages, k, files, encode)
    {
      var m := messages[i];
      if m.role == User && i == |messages| - 1 {
        var parts := BuildContentParts(m.content, files, encode);
        api := api + [ApiMessage(m.role, if |parts| > 1 then Parts(parts) else Plain(m.content))];
      } else {
        api := api + [ApiMessage(m.role, Plain(m.content))];
      }
    }
  }

  /** Image parts of a concatenation are the image parts of each half, in order. */
  lemma {:induction false} ImagePartsAppend(a: seq<AttachedFile>, b: seq<AttachedFile>, encode: Encoder)
    ensures ImageParts(a + b, encode) == ImageParts(a, encode) + ImageParts(b, encode)
  {
    if a != [] {
      assert (a + b)[1..] == a[1..] + b;
      ImagePartsAppend(a[1..], b, encode);
    } else {
      assert a + b == b;
    }
  }

  /** Likewise for the attachments that are sent: order is preserved. */
  lemma {:induction false} EncodedImagesAppend(a: seq<AttachedFile>, b: seq<AttachedFile>, encode: Encoder)
    ensures EncodedImages(a + b, encode) == EncodedImages(a, encode) + EncodedImages(b, encode)
  {
    if a != [] {
      assert (a + b)[1..] == a[1..] + b;
      EncodedImagesAppend(a[1..], b, encode);
    } else {
      assert a + b == b;
    }
  }

  /**
   * The image parts are exactly one `data:` URI per sent attachment, the
   * k-th part for the k-th such attachment.
   */
  lemma {:induction false} ImagePartsMatchEncodedImages(files: seq<AttachedFile>, encode: Encoder)
    ensures |ImageParts(files, encode)| == |EncodedImages(files, encode)|
    ensures forall k :: 0 <= k < |EncodedImages(files, encode)| ==>
      ImageParts(files, encode)[k] == ImageUrlPart(DataUri(EncodedImages(files, encode)[k].mime, encode(EncodedImages(files, encode)[k])))
  {
    if files != [] {
      ImagePartsMatchEncodedImages(files[1..], encode);
      var f, rest := files[0], files[1..];
      if f.IsImage() && encode(f) != "" {
        assert ImageParts(files, encode) == [ImageUrlPart(DataUri(f.mime, encode(f)))] + ImageParts(rest, encode);
        assert EncodedImages(files, encode) == [f] + EncodedImages(rest, encode);
      } else {
        assert ImageParts(files, encode) == ImageParts(rest, encode);
        assert EncodedImages(files, encode) == EncodedImages(rest, encode);
      }
    }
  }

  /**
   * The sent attachments are images of the list whose encoding is
   * non-empty, and every such image of the list is sent: documents, audio,
   * other files and failed encodings contribute nothing.
   */
  lemma {:induction false} EncodedImagesExact(files: seq<AttachedFile>, encode: Encoder)
    ensures forall f :: f in EncodedImages(files, encode) ==> f in files && f.IsImage() && encode(f) != ""
    ensures forall f :: f in files && f.IsImage() && encode(f) != "" ==> f in EncodedImages(files, encode)
  {
    if files != [] {
      EncodedImagesExact(files[1..], encode);
      assert files == [files[0]] + files[1..];
    }
  }

  /** With no image among the attachments, no image part is built. */
  lemma NoImagesNoParts(files: seq<AttachedFile>, encode: Encoder)
    requires forall f :: f in files ==> !f.IsImage()
    ensures ImageParts(files, encode) == []
  {
    EncodedImagesExact(files, encode);
    ImagePartsMatchEncodedImages(files, encode);
  }

  /**
   * The final user message's parts: a text part first exactly when the text
   * is non-empty, then the image parts; every part after the text part is an
   * image reference.
   */
  lemma FinalParts(text: string, files: seq<AttachedFile>, encode: Encoder)
    ensures var parts := ContentParts(text, files, encode);
      (|parts| > 0 && parts[0] == TextPart(text)) <==> text != ""
    ensures var parts := ContentParts(text, files, encode);
      forall k :: |TextParts(text)| <= k < |parts| ==> parts[k].ImageUrlPart?
  {
    var parts := ContentParts(text, files, encode);
    ImagePartsMatchEncodedImages(files, encode);
    if text == "" && |parts| > 0 {
      assert parts[0] == ImageParts(files, encode)[0];
    }
  }

  /**
   * The final user message is sent as a list exactly when it has at least
   * two parts, that is a non-empty text plus one sent image, or two sent
   * images; otherwise its original text is sent unchanged.
   */
  lemma FinalContentChoice(text: string, files: seq<AttachedFile>, encode: Encoder)
    ensures var c := ChooseContent(text, ContentParts(text, files, encode));
      c.Parts? <==> (text != "" && |EncodedImages(files, encode)| >= 1) || |EncodedImages(files, encode)| >= 2
    ensures var c := ChooseContent(text, ContentParts(text, files, encode));
      c.Plain? ==> c.text == text
  {
    ImagePartsMatchEncodedImages(files, encode);
  }

  /** A lone image with an empty text is dropped: the empty text is sent as a string. */
  lemma LoneImageDropped(files: seq<AttachedFile>, encode: Encoder)
    requires |EncodedImages(files, encode)| == 1
    ensures ChooseContent("", ContentParts("", files, encode)) == Plain("")
  {
    ImagePartsMatchEncodedImages(files, encode);
  }

  /**
   * The shape of the built history: same length, same roles in order, every
   * entry but a final user message unchanged, and a final user message
   * carrying the content chosen from its parts.
   */
  lemma ProviderMessagesShape(messages: seq<Message>, files: seq<AttachedFile>, encode: Encoder)
    ensures |ProviderMessages(messages, files, encode)| == |messages|
    ensures forall i :: 0 <= i < |messages| ==>
      ProviderMessages(messages, files, encode)[i].role == messages[i].role
    ensures forall i :: 0 <= i < |messages| && !IsFinalUser(messages, i) ==>
      ProviderMessages(messages, files, encode)[i].content == Plain(messages[i].content)
    ensures messages != [] && messages[|messages| - 1].role == User ==>
      var m := messages[|messages| - 1];
      ProviderMessages(messages, files, encode)[|messages| - 1].content
        == ChooseContent(m.content, ContentParts(m.content, files, encode))
  {
  }

  /** The payload carries the model, the built messages and the fixed settings. */
  lemma PayloadFields(model: string, messages: seq<Message>, files: seq<AttachedFile>, encode: Encoder)
    ensures RequestPayload(model, messages, files, encode).model == model
    ensures RequestPayload(model, messages, files, encode).messages == ProviderMessages(messages, files, encode)
    ensures RequestPayload(model, messages, files, encode).maxTokens == 2000
    ensures RequestPayload(model, messages, files, encode).temperature == 0.7
  {
  }
}
