/** app/admin/files/page.tsx: the file manager's selection list (toggle one
    file, select all, deselect all), the guard on bulk deletion, and the unit
    chosen to print a file size. */
module FileSelection {
  import opened Common
  import opened Numbers

  /** A listed file: the fields the selection and the size label use. */
  datatype FileItem = FileItem(id: string, originalName: string, fileSize: nat)

  function FileId(f: FileItem): string {
    f.id
  }

  /** The filter callback `id => id !== fileId`. */
  function Other(fileId: string): string -> bool {
    (id: string) => id != fileId
  }

  /** `prev.includes(fileId) ? prev.filter(id => id !== fileId) : [...prev, fileId]` */
  function Toggle(selected: seq<string>, fileId: string): (r: seq<string>)
    ensures fileId in r <==> fileId !in selected
    ensures forall x :: x != fileId ==> (x in r <==> x in selected)
    ensures fileId !in selected ==> r == selected + [fileId]
    ensures fileId in selected ==> IsSubsequence(r, selected)
  {
    if fileId in selected then
      FilterIsSubsequence(selected, Other(fileId));
      FilterMembers(selected, Other(fileId));
      Filter(selected, Other(fileId))
    else selected + [fileId]
  }

  /** Toggling a file that was not selected, then toggling it again, gives
      back exactly the list it started from. */
  lemma ToggleTwiceRestores(selected: seq<string>, fileId: string)
    requires fileId !in selected
    ensures Toggle(Toggle(selected, fileId), fileId) == selected
  {
    FilterAppend(selected, [fileId], Other(fileId));
    FilterAll(selected, Other(fileId));
    FilterNone([fileId], Other(fileId));
    assert selected + [] == selected;
  }

  predicate NoDuplicates<T(==)>(s: seq<T>) {
    forall i, j :: 0 <= i < j < |s| ==> s[i] != s[j]
  }

  /** Filtering a list without duplicates leaves none. */
  lemma {:induction false} FilterKeepsNoDuplicates<T(!new)>(s: seq<T>, keep: T -> bool)
    requires NoDuplicates(s)
    ensures NoDuplicates(Filter(s, keep))
  {
    if s != [] {
      var tail := s[1..];
      assert NoDuplicates(tail) by {
        forall i, j | 0 <= i < j < |tail| ensures tail[i] != tail[j] {
          assert tail[i] == s[i + 1] && tail[j] == s[j + 1];
        }
      }
      FilterKeepsNoDuplicates(tail, keep);
      if keep(s[0]) {
        var r := Filter(s, keep);
        assert s[0] !in tail by {
          forall k | 0 <= k < |tail| ensures tail[k] != s[0] {
            assert tail[k] == s[k + 1];
          }
        }
        FilterMembers(tail, keep);
        assert s[0] !in Filter(tail, keep);
        assert r == [s[0]] + Filter(tail, keep);
        forall i, j | 0 <= i < j < |r| ensures r[i] != r[j] {
          if i == 0 {
            assert r[j] == Filter(tail, keep)[j - 1];
          } else {
            assert r[i] == Filter(tail, keep)[i - 1] && r[j] == Filter(tail, keep)[j - 1];
          }
        }
      }
    }
  }

  /** Toggling never introduces a duplicate into a list that has none. */
  lemma ToggleKeepsNoDuplicates(selected: seq<string>, fileId: string)
    requires NoDuplicates(selected)
    ensures NoDuplicates(Toggle(selected, fileId))
  {
    if fileId in selected {
      FilterKeepsNoDuplicates(selected, Other(fileId));
    } else {
      var r := selected + [fileId];
      forall i, j | 0 <= i < j < |r| ensures r[i] != r[j] {
        if j == |selected| {
          assert r[i] == selected[i];
        } else {
          assert r[i] == selected[i] && r[j] == selected[j];
        }
      }
    }
  }

  /** `handleBulkDelete` before its request: the ids sent to the bulk-delete
      endpoint, or nothing when no file is selected or the confirmation is
      declined (`confirmed` stands for the answer to `confirm`). */
  function BulkDeleteRequest(selected: seq<string>, confirmed: bool): (r: Option<seq<string>>)
    ensures selected == [] ==> r.None?
    ensures r.Some? <==> selected != [] && confirmed
    ensures r.Some? ==> r.value == selected
  {
    if |selected| == 0 then None
    else if !confirmed then None
    else Some(selected)
  }

  /** The unit `formatFileSize` prints a size in. */
  datatype SizeUnit = B | KB | MB

  /** The number printed before the unit: the exact byte count, or the size
      scaled to the unit (printed with `toFixed(1)`). */
  datatype SizeLabel = SizeLabel(unit: SizeUnit, scaled: real, text: Option<string>)

  /** `formatFileSize`: bytes below 1024, kilobytes below 1024 * 1024,
      megabytes otherwise; only the byte count has an exact text here. */
  function FormatFileSize(bytes: nat): (shown: SizeLabel)
    ensures shown.unit == B <==> bytes < 1024
    ensures shown.unit == KB <==> 1024 <= bytes < 1024 * 1024
    ensures shown.unit == MB <==> 1024 * 1024 <= bytes
    ensures shown.unit == B ==> shown.text == Some(NatToDecimal(bytes) + " B") && shown.scaled == bytes as real
    ensures shown.unit != B ==> shown.text.None? && 1.0 <= shown.scaled
    ensures shown.unit == KB ==> shown.scaled < 1024.0
  {
    if bytes < 1024 then SizeLabel(B, bytes as real, Some(NatToDecimal(bytes) + " B"))
    else if bytes < 1024 * 1024 then SizeLabel(KB, bytes as real / 1024.0, None)
    else SizeLabel(MB, bytes as real / (1024.0 * 1024.0), None)
  }

  /** The byte text reads back as the size it prints. */
  lemma ByteLabelReadsBack(bytes: nat)
    requires bytes < 1024
    ensures var t := FormatFileSize(bytes).text.value;
            |t| >= 2 && t[|t| - 2..] == " B" && ParseInt(t[..|t| - 2]) == Some(bytes)
  {
    var t := FormatFileSize(bytes).text.value;
    assert t[..|t| - 2] == NatToDecimal(bytes);
    ParseDecimal(bytes);
  }

  /** The file manager's state. */
  class FilesPage {
    var files: seq<FileItem>
    var selectedFiles: seq<string>

    constructor ()
      ensures files == [] && selectedFiles == []
    {
      files := [];
      selectedFiles := [];
    }

    /** `toggleFileSelection` */
    method ToggleFileSelection(fileId: string)
      modifies this
      ensures selectedFiles == Toggle(old(selectedFiles), fileId)
      ensures files == old(files)
    {
      if fileId in selectedFiles {
        selectedFiles := Filter(selectedFiles, Other(fileId));
      } else {
        selectedFiles := selectedFiles + [fileId];
      }
    }

    /** `selectAllFiles`: the ids of the listed files, in list order. */
    method SelectAllFiles()
      modifies this
      ensures selectedFiles == Map(files, FileId)
      ensures files == old(files)
    {
      selectedFiles := Map(files, FileId);
    }

    /** `deselectAllFiles` */
    method DeselectAllFiles()
      modifies this
      ensures selectedFiles == []
      ensures files == old(files)
    {
      selectedFiles := [];
    }

    /** `handleBulkDelete`, `confirmed` being the answer to the confirmation
        and `ok` whether the endpoint succeeded; a success clears the
        selection, anything else leaves it. */
    method HandleBulkDelete(confirmed: bool, ok: bool) returns (sent: Option<seq<string>>)
      modifies this
      ensures sent == BulkDeleteRequest(old(selectedFiles), confirmed)
      ensures selectedFiles == (if sent.Some? && ok then [] else old(selectedFiles))
      ensures files == old(files)
    {
      if |selectedFiles| == 0 {
        return None;
      }
      if !confirmed {
        return None;
      }
      sent := Some(selectedFiles);
      if ok {
        selectedFiles := [];
      }
    }
  }
}
