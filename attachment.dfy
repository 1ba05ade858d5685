/**
 * An attached file (`AttachedFile`): its path, base name, size and media
 * type, and the three classification predicates the client applies to that
 * media type.
 */
module Attachment {
  import opened Wrappers
  import opened Text

  const Application := "application/"

  /** The media type used when none can be guessed from the path. */
  const OctetStream := Application + "octet-stream"
  const PdfType := Application + "pdf"
  const MsWordType := Application + "msword"
  const DocxType := Application + "vnd.openxmlformats-officedocument.wordprocessingml.document"

  /** The exact media types treated as documents: PDF, Word and Word OOXML. */
  const DocumentTypes := [PdfType, MsWordType, DocxType]

  /**
   * What the client asks of the file system and of the `mimetypes` table
   * about a path: whether it is a regular file, its size in bytes and the
   * guessed media type (the first component of `mimetypes.guess_type`).
   */
  datatype FileSystem = FileSystem(
    isFile: string -> bool,
    size: string -> nat,
    guessType: string -> Option<string>)

  datatype AttachedFile = AttachedFile(path: string, name: string, size: nat, mime: string)
  {
    predicate IsImage()
      ensures IsImage() <==> "image/" <= mime
    {
      StartsWithIsPrefix(mime, "image/");
      StartsWith(mime, "image/")
    }

    predicate IsDocument()
      ensures IsDocument() ==> Application <= mime
    {
      mime in DocumentTypes
    }

    predicate IsAudio()
      ensures IsAudio() <==> "audio/" <= mime
    {
      StartsWithIsPrefix(mime, "audio/");
      StartsWith(mime, "audio/")
    }
  }

  /**
   * `guess or 'application/octet-stream'`: a missing guess, and an empty one
   * (which Python also treats as false), give the default.
   */
  function MimeOrDefault(guess: Option<string>): (r: string)
    ensures r != ""
    ensures guess.Some? && guess.value != "" ==> r == guess.value
    ensures guess.None? || guess.value == "" ==> r == OctetStream
  {
    if guess.Some? && guess.value != "" then guess.value else OctetStream
  }

  /** `AttachedFile(path)`: the record built for a path the user attached. */
  function Open(path: string, fs: FileSystem): (f: AttachedFile)
    ensures f.mime != ""
    ensures fs.guessType(path).Some? && fs.guessType(path).value != "" ==> f.mime == fs.guessType(path).value
    ensures fs.guessType(path).None? ==> f.mime == OctetStream
  {
    AttachedFile(path, BaseName(path), fs.size(path), MimeOrDefault(fs.guessType(path)))
  }

  /** Images begin with `i`. */
  lemma ImageHead(f: AttachedFile)
    requires f.IsImage()
    ensures |f.mime| >= 2 && f.mime[0] == 'i'
  {
    StartsWithIsPrefix(f.mime, "image/");
    assert f.mime[..6] == "image/";
  }

  /** Audio types begin with `au`. */
  lemma AudioHead(f: AttachedFile)
    requires f.IsAudio()
    ensures |f.mime| >= 2 && f.mime[0] == 'a' && f.mime[1] == 'u'
  {
    StartsWithIsPrefix(f.mime, "audio/");
    assert f.mime[..6] == "audio/";
  }

  /** Documents begin with `ap`, from `application/`. */
  lemma DocumentHead(f: AttachedFile)
    requires f.IsDocument()
    ensures |f.mime| >= 2 && f.mime[0] == 'a' && f.mime[1] == 'p'
  {
    assert f.mime == PdfType || f.mime == MsWordType || f.mime == DocxType;
    assert f.mime[..|Application|] == Application;
  }

  /** The first two characters every classified media type begins with. */
  lemma ClassHeads(f: AttachedFile)
    ensures f.IsImage() ==> |f.mime| >= 2 && f.mime[0] == 'i'
    ensures f.IsAudio() ==> |f.mime| >= 2 && f.mime[0] == 'a' && f.mime[1] == 'u'
    ensures f.IsDocument() ==> |f.mime| >= 2 && f.mime[0] == 'a' && f.mime[1] == 'p'
  {
    if f.IsImage() { ImageHead(f); }
    if f.IsAudio() { AudioHead(f); }
    if f.IsDocument() { DocumentHead(f); }
  }

  /** No media type is classified two ways. */
  lemma ClassesExclusive(f: AttachedFile)
    ensures !(f.IsImage() && f.IsDocument())
    ensures !(f.IsImage() && f.IsAudio())
    ensures !(f.IsDocument() && f.IsAudio())
  {
    ClassHeads(f);
  }

  /** The default media type is neither image, document nor audio. */
  lemma DefaultUnclassified(f: AttachedFile)
    requires f.mime == OctetStream
    ensures !f.IsImage() && !f.IsDocument() && !f.IsAudio()
  {
    assert Application[1] == 'p';
    assert OctetStream[..|Application|] == Application;
    ClassHeads(f);
    assert |OctetStream| == 24;
    assert |PdfType| == 15 && |MsWordType| == 18 && |DocxType| == 71;
  }

  /**
   * What `AttachedFile(path)` records: the path itself, its base name, its
   * size, and the guessed type, or the default when the guess is missing;
   * a file of the default type is neither image, document nor audio.
   */
  lemma OpenRecords(path: string, fs: FileSystem)
    ensures Open(path, fs).path == path && Open(path, fs).size == fs.size(path)
    ensures '/' !in Open(path, fs).name
    ensures Open(path, fs).name == BaseName(path)
    ensures |Open(path, fs).name| <= |path| && Open(path, fs).name == path[|path| - |Open(path, fs).name|..]
    ensures |Open(path, fs).name| < |path| ==> path[|path| - |Open(path, fs).name| - 1] == '/'
    ensures fs.guessType(path).None? ==> Open(path, fs).mime == OctetStream
    ensures fs.guessType(path).None? ==>
      !Open(path, fs).IsImage() && !Open(path, fs).IsDocument() && !Open(path, fs).IsAudio()
  {
    BaseNameIsLastComponent(path);
    if fs.guessType(path).None? {
      DefaultUnclassified(Open(path, fs));
    }
  }
}
