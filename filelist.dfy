/**
 * `FileListWidget`: the list of attached files and the rows shown for them.
 * Each row carries as its user data the index of its file, and every change
 * of the list is announced with a `files_changed` notice.
 */
module FileListWidget {
  import opened Attachment

  /** A row of the widget: the file's name and, as its user data, an index into the list. */
  datatype Item = Item(fileName: string, tag: int)

  /** The rows for a list of files: row k names file k and is tagged k. */
  function Rows(files: seq<AttachedFile>): (rows: seq<Item>)
    ensures |rows| == |files|
    ensures forall k :: 0 <= k < |rows| ==> rows[k].tag == k && rows[k].fileName == files[k].name
  {
    seq(|files|, k requires 0 <= k < |files| => Item(files[k].name, k))
  }

  /** Appending a file appends one row, tagged with the file's index. */
  lemma RowsAppend(files: seq<AttachedFile>, f: AttachedFile)
    ensures Rows(files + [f]) == Rows(files) + [Item(f.name, |files|)]
  {
    var r, r' := Rows(files + [f]), Rows(files) + [Item(f.name, |files|)];
    assert |r| == |r'|;
    forall k | 0 <= k < |r| ensures r[k] == r'[k] {
      if k < |files| {
        assert (files + [f])[k] == files[k];
      }
    }
  }

  /** `del s[i]`: element i is gone, those before it stay, those after it move down by one. */
  function RemoveAt<T>(s: seq<T>, i: nat): (r: seq<T>)
    requires i < |s|
    ensures |r| == |s| - 1
    ensures forall k :: 0 <= k < i ==> r[k] == s[k]
    ensures forall k :: i <= k < |r| ==> r[k] == s[k + 1]
    ensures multiset(r) + multiset{s[i]} == multiset(s)
  {
    assert s == s[..i] + [s[i]] + s[i + 1..];
    s[..i] + s[i + 1..]
  }

  class FileList {
    var files: seq<AttachedFile>
    var items: seq<Item>
    /** The lists announced by `files_changed`, oldest first. */
    var notices: seq<seq<AttachedFile>>

    ghost predicate Valid()
      reads this
    {
      items == Rows(files)
    }

    constructor ()
      ensures Valid()
      ensures files == [] && items == [] && notices == []
    {
      files, items, notices := [], [], [];
    }

    /** `add_file`: a path that is not a regular file is ignored; otherwise one file and one row are appended. */
    method AddFile(path: string, fs: FileSystem)
      requires Valid()
      modifies this
      ensures Valid()
      ensures if fs.isFile(path) then
          files == old(files) + [Open(path, fs)]
          && items == old(items) + [Item(Open(path, fs).name, |old(files)|)]
          && notices == old(notices) + [files]
        else
          files == old(files) && items == old(items) && notices == old(notices)
    {
      if !fs.isFile(path) {
        return;
      }
      var attached := Open(path, fs);
      RowsAppend(files, attached);
      files := files + [attached];
      items := items + [Item(attached.name, |files| - 1)];
      notices := notices + [files];
    }

    /**
     * `remove_file`: an index inside the list deletes exactly that file and
     * rebuilds the rows so that row k is tagged k again; any other index
     * changes nothing.
     */
    method RemoveFile(index: int)
      requires Valid()
      modifies this
      ensures Valid()
      ensures if 0 <= index < |old(files)| then
          files == RemoveAt(old(files), index) && notices == old(notices) + [files]
        else
          files == old(files) && items == old(items) && notices == old(notices)
    {
      if 0 <= index < |files| {
        var remaining := files[..index] + files[index + 1..];
        var rows: seq<Item> := [];
        for i := 0 to |remaining|
          invariant |rows| == i
          invariant forall k :: 0 <= k < i ==> rows[k] == Item(remaining[k].name, k)
        {
          rows := rows + [Item(remaining[i].name, i)];
        }
        files, items := remaining, rows;
        notices := notices + [files];
      }
    }

    /** `clear_files`: no file and no row is left, and the empty list is announced. */
    method ClearFiles()
      requires Valid()
      modifies this
      ensures Valid()
      ensures files == [] && items == [] && notices == old(notices) + [[]]
    {
      files := [];
      items := [];
      notices := notices + [files];
    }

    /**
     * The delete entry of the context menu on row `row`: when there is such a
     * row and the entry is chosen, the file whose index the row carries is
     * removed, which is the file shown on that row.
     */
    method DeleteFromMenu(row: int, chosen: bool)
      requires Valid()
      modifies this
      ensures Valid()
      ensures if 0 <= row < |old(items)| && chosen then
          files == RemoveAt(old(files), row) && notices == old(notices) + [files]
        else
          files == old(files) && items == old(items) && notices == old(notices)
    {
      if 0 <= row < |items| && chosen {
        RemoveFile(items[row].tag);
      }
    }
  }
}
