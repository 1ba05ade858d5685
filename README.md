# OpenRouter chat client: attachments, request building, outcome and window state

This project models the sequential logic of the desktop chat client in
`openrouter-gui.py`, a PyQt window that sends a conversation and attached
files to the OpenRouter chat-completions API in one non-streaming POST.

- **Attachments** (`Attachment`): an `AttachedFile` records the path, its base
  name, its size and its media type. The media type falls back to
  `application/octet-stream` when `mimetypes` cannot guess one. The file is an
  image when the type starts with `image/`, audio when it starts with `audio/`,
  and a document when it is exactly PDF, Word or Word OOXML.
- **Request building** (`Request`): `OpenRouterAPIThread.run` turns the
  history into the provider's `messages` array. Only a final user message gets
  a list of parts: an optional text part, then one `data:<mime>;base64,<payload>`
  image part per image whose encoding succeeded. With fewer than two parts the
  original text is sent instead. The payload adds `max_tokens` 2000 and
  `temperature` 0.7.
- **Outcome** (`Response`, `ApiThread`): a run emits exactly one signal,
  `message_received` with `choices[0].message.content` or `error_occurred` with
  one of three texts. The POST goes to `<base>/chat/completions` with bearer
  authorisation and a 60-second timeout.
- **State** (`FileListWidget`, `MainWindow`): the attachment list is a class
  whose rows carry their own index, and the window is a class holding the
  history, the bubbles, the input box and the send button.

Things outside the program are parameters:
- the file system and the `mimetypes` table are a `FileSystem` value (is it a
  regular file, its size, the guessed type);
- reading and base64-encoding a file is an `Encoder` (`AttachedFile -> string`),
  where `""` is what `get_base64_content` returns on a read error. An empty
  file also encodes to `""`, so it is dropped the same way;
- the HTTP exchange is a `Transport` (`PostRequest -> HttpResult`), and the
  response is an abstract value: an exception, or a status code with a body
  and a `Json` value. `Json` groups parsed bodies by the branch `run` takes
  on them:
  - `NotJson`: the body does not parse;
  - `Object(None)`: `'choices' in result` is false, as for an object without
    the key or a list without it;
  - `Object(Some(choices))`: `choices` is a list of objects, or an empty
    `choices` of any kind (`Object(Some([]))`);
  - `Malformed`: looking into the body raises, for example when a non-empty
    `choices` is not a list, or a first choice or `message` is not an object;
- the model menu's current data is an `Option<string>` argument.

Python semantics written out: `str.strip` with Python's white-space set
(including U+3000), `str.startswith`, the decimal rendering of the status
code in the f-string, the POSIX `os.path.basename`, and the truthiness tests
(`guess or default`, `if current_data`, `if msg.get('content')`).

## Model

| member | source | states |
|---|---|---|
| `Text.StartsWith` | openrouter-gui.py:93 | a string starts with a prefix only if it is at least as long |
| `Text.StartsWithIsPrefix` | openrouter-gui.py:93 | `startswith` holds exactly when the prefix is a prefix of the string |
| `Text.Strip` | openrouter-gui.py:647 | the stripped text is an infix with only white space around it, neither starting nor ending with white space; it is empty exactly when the input is all white space |
| `Text.Decimal` | openrouter-gui.py:353 | the status code renders as at least one decimal digit, with no leading zero |
| `Text.DecimalRoundTrip` | openrouter-gui.py:353 | reading the rendered digits back gives the status code |
| `Text.DecimalInjective` | openrouter-gui.py:353 | two codes with the same rendering are equal |
| `Text.BaseName` | openrouter-gui.py:88 | the base name is no longer than the path and contains no `/` |
| `Text.BaseNameIsLastComponent` | openrouter-gui.py:88 | the file name is the longest `/`-free suffix of the path |
| `Attachment.Open` | openrouter-gui.py:86-90 | the record's media type is never empty: it is the guessed type when there is one, else `application/octet-stream` |
| `Attachment.AttachedFile.IsImage` | openrouter-gui.py:92-93 | a file is an image iff its type has the prefix `image/` |
| `Attachment.AttachedFile.IsDocument` | openrouter-gui.py:95-97 | every document type has the prefix `application/` |
| `Attachment.AttachedFile.IsAudio` | openrouter-gui.py:99-100 | a file is audio iff its type has the prefix `audio/` |
| `Attachment.MimeOrDefault` | openrouter-gui.py:90 | a present, non-empty guess is kept; a missing or empty guess gives `application/octet-stream`; the result is never empty |
| `Attachment.ClassesExclusive` | openrouter-gui.py:92-100 | no file is two of image, document and audio |
| `Attachment.DefaultUnclassified` | openrouter-gui.py:90-100 | the default type is neither image, document nor audio |
| `Attachment.OpenRecords` | openrouter-gui.py:86-90 | the record keeps the path and size; its name is the base name, the longest `/`-free suffix of the path; with no guessed type it has the default type and no class |
| `Request.DataUri` | openrouter-gui.py:315 | the image URI's length is the media type's plus the payload's plus 13 |
| `Request.DataUriFields` | openrouter-gui.py:315 | the image URI is `data:`, the media type, `;base64,` and the payload, each at its own position |
| `Request.TextParts` | openrouter-gui.py:300-304 | at most one part, the text itself, present iff the text is non-empty |
| `Request.ImageParts` | openrouter-gui.py:307-318 | at most one part per attachment, every one an image reference |
| `Request.EncodedImages` | openrouter-gui.py:307-318 | the sent attachments are images of the list with a non-empty encoding, at most one per attachment |
| `Request.ContentParts` | openrouter-gui.py:297-318 | one part for a non-empty text plus one per sent attachment; all parts after the text are image references |
| `Request.ChooseContent` | openrouter-gui.py:322 | the content is the list iff it has more than one part, and otherwise the original text |
| `Request.ProviderMessage` | openrouter-gui.py:294-329 | the entry keeps its role; any entry but a final user message keeps its text; a list content only on a final user message, with at least two parts |
| `Request.ProviderMessages` | openrouter-gui.py:294-329 | one provider message per history entry, with the same role |
| `Request.RequestPayload` | openrouter-gui.py:331-336 | the payload has the chosen model, 2000 tokens, temperature 0.7 and one message per history entry |
| `Request.BuildContentParts` | openrouter-gui.py:297-318 | the parts loop yields the text part (if any) then the image parts, one per encoded image |
| `Request.BuildApiMessages` | openrouter-gui.py:291-329 | the messages loop yields one provider message per entry, same roles in order, every entry but a final user message unchanged |
| `Request.ImagePartsAppend` | openrouter-gui.py:307-318 | image parts of a concatenation are those of each half, in order |
| `Request.EncodedImagesAppend` | openrouter-gui.py:307-318 | the sent attachments keep attachment order |
| `Request.ImagePartsMatchEncodedImages` | openrouter-gui.py:307-318 | the k-th image part is the `data:<mime>;base64,<payload>` reference of the k-th sent attachment |
| `Request.EncodedImagesExact` | openrouter-gui.py:307-318 | an attachment is sent iff it is an image of the list whose encoding is non-empty |
| `Request.NoImagesNoParts` | openrouter-gui.py:307-311 | without images no image part is built |
| `Request.FinalParts` | openrouter-gui.py:297-318 | the parts begin with the text part iff the text is non-empty, and all later parts are image references |
| `Request.FinalContentChoice` | openrouter-gui.py:320-323 | the content is a list iff there are at least two parts; otherwise it is the original text |
| `Request.LoneImageDropped` | openrouter-gui.py:322 | one image with empty text is sent as the empty string, without the image |
| `Request.ProviderMessagesShape` | openrouter-gui.py:294-329 | same length and roles as the history, entries unchanged except a final user message, which gets the chosen content |
| `Request.PayloadFields` | openrouter-gui.py:331-336 | the payload is the model, the built messages, 2000 tokens and temperature 0.7 |
| `Response.Outcome` | openrouter-gui.py:345-356 | a received message needs status 200; an error text is never empty |
| `Response.ApiErrorText` | openrouter-gui.py:353 | the API error text starts with `API エラー: ` and is at least four characters longer than the prefix and body together |
| `Response.ExceptionText` | openrouter-gui.py:355-356 | the exception text is `エラーが発生しました: ` followed by the exception's message |
| `Response.KeyErrorText` | openrouter-gui.py:348-356 | the message of a missing key is the key inside single quotes |
| `Response.ReceivedIff` | openrouter-gui.py:345-349 | a message is received iff the status is 200 and the first of a non-empty `choices` has `message.content`, and it is that content |
| `Response.NoChoicesIsInvalid` | openrouter-gui.py:347-351 | status 200 with `choices` missing or empty is the invalid-response error |
| `Response.OtherStatusIsApiError` | openrouter-gui.py:352-353 | any other status gives the API error with status code and body |
| `Response.ExceptionIsError` | openrouter-gui.py:345-356 | an exception, a body that is not JSON, or one whose inspection raises gives the error with the exception's message |
| `Response.ApiErrorTextInjective` | openrouter-gui.py:353 | the API error text determines both the status code and the body |
| `ApiThread.Run` | openrouter-gui.py:283-356 | the POST goes to `<base>/chat/completions` with `Bearer <key>`, JSON and a 60 s timeout, carries the built payload, and the one event is the outcome of its response |
| `FileListWidget.Rows` | openrouter-gui.py:187-192 | one row per file, row k naming file k and tagged k |
| `FileListWidget.RowsAppend` | openrouter-gui.py:144-151 | appending a file appends one row tagged with the new file's index |
| `FileListWidget.RemoveAt` | openrouter-gui.py:183 | deleting index i keeps the elements before i, moves the later ones down by one, and removes exactly one occurrence |
| `FileListWidget.FileList.constructor` | openrouter-gui.py:117-122 | a new list holds no file and no row |
| `FileListWidget.FileList.AddFile` | openrouter-gui.py:138-156 | a non-regular path changes nothing; otherwise one file and one row tagged with its index are appended and announced |
| `FileListWidget.FileList.RemoveFile` | openrouter-gui.py:180-194 | an index in range deletes exactly that file, re-tags the rows and announces the list; any other index changes nothing |
| `FileListWidget.FileList.ClearFiles` | openrouter-gui.py:196-200 | no file and no row is left, and the empty list is announced |
| `FileListWidget.FileList.DeleteFromMenu` | openrouter-gui.py:166-178 | deleting from a row's menu removes the file shown on that row |
| `MainWindow.SelectedModel` | openrouter-gui.py:427-433 | the selected identifier when present and non-empty, else `openai/gpt-4o` |
| `MainWindow.ImagePaths` | openrouter-gui.py:659 | the shown paths are exactly the paths of the image attachments |
| `MainWindow.ImagePathsAppend` | openrouter-gui.py:659 | the shown paths keep attachment order |
| `MainWindow.OpenAll` | openrouter-gui.py:625-626 | the files kept from chosen paths are exactly the opened regular files |
| `MainWindow.AnnouncedAppend` | openrouter-gui.py:144-156 | one more addition adds one notice: the list with the new file at its end |
| `MainWindow.OpenAllAppend` | openrouter-gui.py:625-626 | paths are taken in order, each regular file adding its record at the end |
| `MainWindow.SentImagesAreShown` | openrouter-gui.py:659 | every attachment that is sent is among the images shown in the user's bubble |
| `MainWindow.RecordedTextKeepsImages` | openrouter-gui.py:663-666 | with a non-empty recorded text the final message is a list iff an image was encoded, and then it is the text followed by the image parts |
| `MainWindow.Window.constructor` | openrouter-gui.py:360-368 | a new window has an empty history and the configured key and base URL |
| `MainWindow.Window.SendMessage` | openrouter-gui.py:645-692 | without text and files, or without a key, nothing changes; otherwise one user message (text or placeholder) and one bubble with the image paths are appended, input and attachments are cleared, sending is disabled, and the thread gets the history and the former files |
| `MainWindow.Window.OnMessageReceived` | openrouter-gui.py:694-703 | one assistant message and bubble are appended and sending is enabled |
| `MainWindow.Window.OnErrorOccurred` | openrouter-gui.py:705-709 | sending is enabled and the history is unchanged |
| `MainWindow.Window.Deliver` | openrouter-gui.py:690-691 | the emitted signal reaches its slot: a message appends one assistant message and one assistant bubble without images; an error changes neither history nor bubbles; sending is enabled |
| `MainWindow.Window.ClearChat` | openrouter-gui.py:711-720 | the history and bubbles are emptied |
| `MainWindow.Window.AddFileDialog` | openrouter-gui.py:617-626 | the files chosen in the dialog are appended through `add_file`, in order, and each addition announces the list as it then stands |
| `MainWindow.Exchange` | openrouter-gui.py:645-700 | a first text message leads to a history of that message, followed by an assistant message with the answer's content exactly when the response yields one |

## Left out

- Qt presentation: `ChatBubble`, styles, layouts, scrolling, the progress bar, message boxes and `on_files_changed` (the list is shown or hidden). `files_changed` is modelled only as a log of the announced lists.
- Drag and drop (`dragEnterEvent`, `dropEvent`, the input-frame handlers, `eventFilter`): event plumbing that ends in `add_file` or `send_message`, which are modelled.
- `ConfigDialog`, `load_config` and `save_config`: JSON file I/O. The window is given the key and base URL; a missing `api_key` entry is the empty key. The model assumes a `base_url` entry is always present. Without one, `send_message` raises `KeyError` at `self.config['base_url']`, after the user message and bubble were added, the files cleared and sending disabled, and no thread starts.
- `setup_model_list`: static menu data. The menu's current data is an argument of `SendMessage`.
- `format_file_size`: it needs float division and `%.1f` formatting, so a row records only the file's name and its index.
- `mimetypes.guess_type`, `os.path.isfile`, `os.path.getsize`, file reading and `base64.b64encode`: library calls, modelled as the `FileSystem` and `Encoder` parameters.
- `requests.post` and the JSON decoder: the network is the `Transport` parameter and the parsed body is an abstract `Json` value, so the model does not tie the parse to the body text. Bodies are grouped by the branch they take. A body where `'choices' in result` is false is `Object(None)`; this includes a list without that element and a string without that substring. An empty `choices` of any kind, whether list, string or object, is `Object(Some([]))`, the invalid-response case. A body whose indexing raises is `Malformed(detail)`. This includes a `null` or number body, a non-empty `choices` that is not a list, and a first choice or `message` that is not an object. It also includes a present `content` that is not a string, such as `null`: emitting it on the `str` signal raises `TypeError`. The text of such exceptions is the `detail` parameter.
- Threading: `QThread` and queued signal delivery. A run is one method call returning its single event. In the program the thread holds a reference to the window's history list, and a `clear_chat` during a run could race with it; the model passes a copy.
- Roles other than `user` and `assistant` are never created by the program; `System` is only representable.
- `print` debug output.
- `Text.BaseName` is POSIX `os.path.basename`: it splits only at `/`. On Windows Python uses `ntpath`, which also splits at `\` and after a drive colon; the model does not cover that host.
