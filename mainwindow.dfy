/**
 * `MainWindow`: the conversation history, the chat bubbles shown for it,
 * the input box, the send button and the attachment list, and the handlers
 * that change them when the user sends a message, when the API thread
 * answers, and when the chat is cleared.
 */
module MainWindow {
  import opened Wrappers
  import opened Text
  import opened Attachment
  import opened Request
  import opened Response
  import opened ApiThread
  import opened FileListWidget

  /** A chat bubble: its text, whether it is the user's, and the image paths shown in it. */
  datatype Bubble = Bubble(text: string, isUser: bool, images: seq<string>)

  /** The model used when the selected row of the model menu carries no identifier. */
  const DefaultModel := "openai/gpt-4o"
  /** The text recorded in the history for a message sent without text. */
  const ImagePrompt := "画像について教えてください"
  /** The text shown in the bubble of a message sent without text. */
  const ImagesSentCaption := "画像を送信しました"

  /** `get_selected_model`: the selected row's identifier, or the default when it has none (or an empty one). */
  function SelectedModel(data: Option<string>): (r: string)
    ensures r != ""
    ensures data.Some? && data.value != "" ==> r == data.value
    ensures data.None? || data.value == "" ==> r == DefaultModel
  {
    if data.Some? && data.value != "" then data.value else DefaultModel
  }

  /** The paths of the image attachments, in attachment order (shown in the user's bubble). */
  function ImagePaths(files: seq<AttachedFile>): (r: seq<string>)
    ensures |r| <= |files|
    ensures forall p :: p in r ==> exists f :: f in files && f.IsImage() && f.path == p
    ensures forall f :: f in files && f.IsImage() ==> f.path in r
  {
    if files == [] then []
    else (if files[0].IsImage() then [files[0].path] else []) + ImagePaths(files[1..])
  }

  /** The shown paths keep attachment order: those of a concatenation are those of each half. */
  lemma {:induction false} ImagePathsAppend(a: seq<AttachedFile>, b: seq<AttachedFile>)
    ensures ImagePaths(a + b) == ImagePaths(a) + ImagePaths(b)
  {
    if a == [] {
      assert a + b == b;
    } else {
      assert (a + b)[1..] == a[1..] + b;
      ImagePathsAppend(a[1..], b);
    }
  }

  /** The files `add_file` keeps from a list of paths: the regular files, opened, in order. */
  function OpenAll(paths: seq<string>, fs: FileSystem): (r: seq<AttachedFile>)
    ensures |r| <= |paths|
    ensures forall f :: f in r ==> f.path in paths && fs.isFile(f.path) && f == Open(f.path, fs)
    ensures forall p :: p in paths && fs.isFile(p) ==> Open(p, fs) in r
  {
    if paths == [] then []
    else (if fs.isFile(paths[0]) then [Open(paths[0], fs)] else []) + OpenAll(paths[1..], fs)
  }

  /**
   * The `files_changed` notices of adding `added` one file at a time to a
   * list holding `before`: after the k-th addition, the list up to it.
   */
  function Announced(before: seq<AttachedFile>, added: seq<AttachedFile>): (r: seq<seq<AttachedFile>>)
    ensures |r| == |added|
  {
    seq(|added|, k requires 0 <= k < |added| => before + added[..k + 1])
  }

  /** One more addition adds one notice, the list as it now stands. */
  lemma AnnouncedAppend(before: seq<AttachedFile>, added: seq<AttachedFile>, f: AttachedFile)
    ensures Announced(before, added + [f]) == Announced(before, added) + [before + added + [f]]
  {
    var r, r' := Announced(before, added + [f]), Announced(before, added) + [before + added + [f]];
    forall k | 0 <= k < |r| ensures r[k] == r'[k] {
      if k < |added| {
        assert (added + [f])[..k + 1] == added[..k + 1];
      } else {
        assert (added + [f])[..k + 1] == added + [f];
      }
    }
  }

  lemma {:induction false} OpenAllAppend(paths: seq<string>, p: string, fs: FileSystem)
    ensures OpenAll(paths + [p], fs) == OpenAll(paths, fs) + (if fs.isFile(p) then [Open(p, fs)] else [])
  {
    if paths == [] {
      assert [p][1..] == [];
      assert paths + [p] == [p];
    } else {
      assert (paths + [p])[1..] == paths[1..] + [p];
      OpenAllAppend(paths[1..], p, fs);
    }
  }

  /**
   * Every attachment that reaches the request is among the images shown in
   * the user's bubble; the bubble also shows images whose encoding failed.
   */
  lemma SentImagesAreShown(files: seq<AttachedFile>, encode: Encoder)
    ensures forall f :: f in EncodedImages(files, encode) ==> f.path in ImagePaths(files)
  {
    EncodedImagesExact(files, encode);
  }

  /**
   * Because a message sent without text is recorded with `ImagePrompt`, the
   * final user message always has a text part: its content is a list
   * exactly when at least one image was encoded, and then it is that text
   * followed by the image parts.
   */
  lemma RecordedTextKeepsImages(history: seq<Message>, text: string, files: seq<AttachedFile>, encode: Encoder)
    requires text != ""
    ensures var c := ProviderMessages(history + [Message(User, text)], files, encode)[|history|].content;
      (c.Parts? <==> |EncodedImages(files, encode)| >= 1)
      && (c.Parts? ==> c.parts == [TextPart(text)] + ImageParts(files, encode))
      && (c.Plain? ==> c.text == text)
  {
    var msgs := history + [Message(User, text)];
    assert IsFinalUser(msgs, |history|);
    FinalContentChoice(text, files, encode);
  }

  class Window {
    var messages: seq<Message>
    var bubbles: seq<Bubble>
    /** The text in the input box. */
    var draft: string
    var sendEnabled: bool
    var apiKey: string
    var baseUrl: string
    const fileList: FileList

    ghost predicate Valid()
      reads this, fileList
    {
      fileList.Valid()
    }

    /** A window with an empty history, configured with the stored key and base URL. */
    constructor (apiKey: string, baseUrl: string)
      ensures Valid() && fresh(fileList)
      ensures messages == [] && bubbles == [] && draft == "" && sendEnabled
      ensures this.apiKey == apiKey && this.baseUrl == baseUrl
      ensures fileList.files == [] && fileList.notices == []
    {
      messages, bubbles, draft, sendEnabled := [], [], "", true;
      this.apiKey, this.baseUrl := apiKey, baseUrl;
      fileList := new FileList();
    }

    /**
     * `send_message`. Without text (after stripping) and without files, or
     * without an API key, nothing changes and no request is made. Otherwise
     * one user message is recorded (the text, or `ImagePrompt` when there is
     * none), one user bubble shows the image attachments' paths, the input
     * box is emptied, sending is disabled, the attachment list is cleared,
     * and the thread is started with the history and the files it had.
     */
    method SendMessage(modelData: Option<string>) returns (request: Option<ApiRequest>)
      requires Valid()
      modifies this, fileList
      ensures Valid()
      ensures apiKey == old(apiKey) && baseUrl == old(baseUrl)
      ensures var text := Strip(old(draft));
        if (text == "" && old(fileList.files) == []) || apiKey == "" then
          request == None && messages == old(messages) && bubbles == old(bubbles)
          && draft == old(draft) && sendEnabled == old(sendEnabled)
          && fileList.files == old(fileList.files) && fileList.items == old(fileList.items)
          && fileList.notices == old(fileList.notices)
        else
          messages == old(messages) + [Message(User, if text != "" then text else ImagePrompt)]
          && bubbles == old(bubbles) + [Bubble(if text != "" then text else ImagesSentCaption, true, ImagePaths(old(fileList.files)))]
          && draft == "" && !sendEnabled
          && fileList.files == [] && fileList.notices == old(fileList.notices) + [[]]
          && request == Some(ApiRequest(apiKey, baseUrl, SelectedModel(modelData), messages, old(fileList.files)))
    {
      var text := Strip(draft);
      if text == "" && fileList.files == [] {
        return None;
      }
      if apiKey == "" {
        return None;
      }
      var currentFiles := fileList.files;
      var attachedImages := ImagePaths(currentFiles);
      bubbles := bubbles + [Bubble(if text != "" then text else ImagesSentCaption, true, attachedImages)];
      messages := messages + [Message(User, if text != "" then text else ImagePrompt)];
      draft := "";
      sendEnabled := false;
      fileList.ClearFiles();
      request := Some(ApiRequest(apiKey, baseUrl, SelectedModel(modelData), messages, currentFiles));
    }

    /** `on_message_received`: one assistant bubble and one assistant message are appended, and sending is enabled. */
    method OnMessageReceived(message: string)
      modifies this
      ensures messages == old(messages) + [Message(Assistant, message)]
      ensures bubbles == old(bubbles) + [Bubble(message, false, [])]
      ensures sendEnabled
      ensures draft == old(draft) && apiKey == old(apiKey) && baseUrl == old(baseUrl)
    {
      bubbles := bubbles + [Bubble(message, false, [])];
      messages := messages + [Message(Assistant, message)];
      sendEnabled := true;
    }

    /** `on_error_occurred`: sending is enabled again and the history is left as it is. */
    method OnErrorOccurred(error: string)
      modifies this
      ensures sendEnabled
      ensures messages == old(messages) && bubbles == old(bubbles)
      ensures draft == old(draft) && apiKey == old(apiKey) && baseUrl == old(baseUrl)
    {
      sendEnabled := true;
    }

    /** The slot connected to the signal the thread emitted. */
    method Deliver(event: Event)
      modifies this
      ensures event.MessageReceived? ==> messages == old(messages) + [Message(Assistant, event.message)]
      ensures event.MessageReceived? ==> bubbles == old(bubbles) + [Bubble(event.message, false, [])]
      ensures event.ErrorOccurred? ==> messages == old(messages) && bubbles == old(bubbles)
      ensures sendEnabled
      ensures draft == old(draft) && apiKey == old(apiKey) && baseUrl == old(baseUrl)
    {
      match event
      case MessageReceived(message) => OnMessageReceived(message);
      case ErrorOccurred(error) => OnErrorOccurred(error);
    }

    /** `clear_chat`: the history and the bubbles are emptied; attachments and the input box are kept. */
    method ClearChat()
      modifies this
      ensures messages == [] && bubbles == []
      ensures draft == old(draft) && sendEnabled == old(sendEnabled)
      ensures apiKey == old(apiKey) && baseUrl == old(baseUrl)
    {
      bubbles := [];
      messages := [];
    }

    /** `add_file_dialog`: each chosen path is offered to the attachment list in turn. */
    method AddFileDialog(paths: seq<string>, fs: FileSystem)
      requires Valid()
      modifies fileList
      ensures Valid()
      ensures fileList.files == old(fileList.files) + OpenAll(paths, fs)
      ensures fileList.notices == old(fileList.notices) + Announced(old(fileList.files), OpenAll(paths, fs))
    {
      for i := 0 to |paths|
        invariant fileList.Valid()
        invariant fileList.files == old(fileList.files) + OpenAll(paths[..i], fs)
        invariant fileList.notices == old(fileList.notices) + Announced(old(fileList.files), OpenAll(paths[..i], fs))
      {
        OpenAllAppend(paths[..i], paths[i], fs);
        assert paths[..i + 1] == paths[..i] + [paths[i]];
        ghost var sofar := OpenAll(paths[..i], fs);
        ghost var before := fileList.notices;
        if fs.isFile(paths[i]) {
          AnnouncedAppend(old(fileList.files), sofar, Open(paths[i], fs));
        }
        fileList.AddFile(paths[i], fs);
        if fs.isFile(paths[i]) {
          assert fileList.files == old(fileList.files) + (sofar + [Open(paths[i], fs)]);
          assert fileList.notices == before + [fileList.files];
          assert old(fileList.files) + sofar + [Open(paths[i], fs)] == fileList.files;
          assert fileList.notices
            == old(fileList.notices) + (Announced(old(fileList.files), sofar) + [fileList.files]);
          assert OpenAll(paths[..i + 1], fs) == sofar + [Open(paths[i], fs)];
        } else {
          assert OpenAll(paths[..i + 1], fs) == sofar;
        }
      }
      assert paths[..|paths|] == paths;
    }
  }

  /**
   * One exchange, start to finish: a text message sent with an API key is
   * recorded, the request carries the history that ends with it, and a
   * received answer is recorded after it.
   */
  method Exchange(text: string, key: string, encode: Encoder, post: Transport)
    returns (history: seq<Message>)
    requires Strip(text) != "" && key != ""
    ensures |history| == 2 || |history| == 1
    ensures history[0] == Message(User, Strip(text))
    ensures |history| == 2 <==> Outcome(post(PostFor(key, text, encode))).MessageReceived?
    ensures |history| == 2 ==>
      history[1] == Message(Assistant, Outcome(post(PostFor(key, text, encode))).message)
  {
    var w := new Window(key, "https://openrouter.ai/api/v1");
    w.draft := text;
    var request := w.SendMessage(None);
    var sent, event := Run(request.value, encode, post);
    assert "https://openrouter.ai/api/v1" + "/chat/completions" == "https://openrouter.ai/api/v1/chat/completions";
    assert sent == PostFor(key, text, encode);
    w.Deliver(event);
    history := w.messages;
  }

  /** The POST issued for a first message `text` sent to the default model with key `key`. */
  function PostFor(key: string, text: string, encode: Encoder): PostRequest
  {
    PostRequest(
      "https://openrouter.ai/api/v1/chat/completions", "Bearer " + key, "application/json",
      RequestPayload(DefaultModel, [Message(User, Strip(text))], [], encode), TimeoutSeconds)
  }
}
