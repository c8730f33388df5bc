/**
 * The `ImportModal` component that the Birthdays page and the Dashboard each
 * declare: it keeps the chosen file, posts it to the CSV import endpoint and
 * keeps the server's answer. The two copies differ only in which files they
 * take: the Birthdays page also takes a file whose name ends in `.csv`,
 * whatever its media type; the Dashboard takes only the media type `text/csv`.
 */
module ImportDialog {
  import opened Wrappers
  import opened BirthdayServiceModel

  /** A picked file: its name and the media type the browser reports. */
  datatype SelectedFile = SelectedFile(name: string, mediaType: string)

  const CsvMediaType: string := "text/csv"
  const CsvSuffix: string := ".csv"

  predicate EndsWith(s: string, suffix: string) {
    |suffix| <= |s| && s[|s| - |suffix|..] == suffix
  }

  /** The file test of `handleFileChange`: the Birthdays copy when `lenient`, the Dashboard copy otherwise. */
  predicate AcceptsFile(lenient: bool, f: SelectedFile) {
    f.mediaType == CsvMediaType || (lenient && EndsWith(f.name, CsvSuffix))
  }

  /** A file the Dashboard takes is one the Birthdays page takes too. */
  lemma StrictIsStricter(f: SelectedFile)
    ensures AcceptsFile(false, f) ==> AcceptsFile(true, f)
    ensures AcceptsFile(false, f) <==> f.mediaType == CsvMediaType
    ensures AcceptsFile(true, f) <==> f.mediaType == CsvMediaType || EndsWith(f.name, CsvSuffix)
  {
  }

  /** A `.csv` file the browser reports under another media type: taken on the Birthdays page only. */
  lemma CsvNameWithOtherType()
    ensures var f := SelectedFile("friends.csv", "application/vnd.ms-excel");
      AcceptsFile(true, f) && !AcceptsFile(false, f)
  {
    var f := SelectedFile("friends.csv", "application/vnd.ms-excel");
    assert f.name[|f.name| - 4..] == CsvSuffix;
    assert f.mediaType[0] != CsvMediaType[0];
  }

  class ImportModal {
    /** Whether this is the Birthdays page's copy. */
    const lenient: bool
    var file: Option<SelectedFile>
    var importing: bool
    /** The `data.data` of the last answer: the import result. */
    var result: Option<ImportResult>

    constructor(lenient: bool)
      ensures this.lenient == lenient && file == None && !importing && result == None
    {
      this.lenient := lenient;
      file := None;
      importing := false;
      result := None;
    }

    /**
     * `handleFileChange`: a picked file that passes the test becomes the
     * chosen file; otherwise an error toast is shown (`rejected`) and the
     * chosen file stays as it was.
     */
    method HandleFileChange(selected: Option<SelectedFile>) returns (rejected: bool)
      modifies this
      ensures rejected <==> !(selected.Some? && AcceptsFile(lenient, selected.value))
      ensures file == if rejected then old(file) else selected
      ensures importing == old(importing) && result == old(result)
    {
      if selected.Some? && AcceptsFile(lenient, selected.value) {
        file := selected;
        rejected := false;
      } else {
        rejected := true;
      }
    }

    /**
     * `handleImport`. Without a chosen file nothing is posted. Otherwise the
     * file is posted; `response` is how that request ends (`None` when it is
     * rejected). An answer is kept as the result even when nothing was
     * imported, and the page's reload callback runs only when at least one
     * record was imported.
     */
    method HandleImport(response: Option<ImportResult>) returns (posted: bool, reloaded: bool)
      modifies this
      ensures posted <==> old(file).Some?
      ensures result == if posted && response.Some? then response else old(result)
      ensures reloaded <==> posted && response.Some? && response.value.importedCount > 0
      ensures importing == (old(importing) && !posted)
      ensures file == old(file)
    {
      if file.None? {
        return false, false;
      }
      importing := true;
      posted := true;
      reloaded := false;
      if response.Some? {
        result := response;
        if response.value.importedCount > 0 {
          reloaded := true;
        }
      }
      importing := false;
    }
  }
}
