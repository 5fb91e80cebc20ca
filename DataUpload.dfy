/** The plain upload page: the file-name check, the raw CSV and JSON previews, and when its submit button
    is enabled. Previews are modelled as the rows and text placed in the page, not as HTML text; the
    page's elements are modelled as the fields of one object. */
module DataUpload {
  import opened Common
  import DataUploader

  /** `fileName.endsWith('.csv') || fileName.endsWith('.json')`: here the case of the name matters. */
  predicate Supported(name: string)
  {
    EndsWith(name, ".csv") || EndsWith(name, ".json")
  }

  // ---------------------------------------------------------------- previews

  /** A table row: `th` cells for the first line, `td` cells for the others. */
  datatype Row = Row(isHeader: bool, cells: seq<string>)

  /** What the preview container shows. */
  datatype Preview = Unsupported | Table(rows: seq<Row>) | JsonText(shown: string, truncated: bool) | JsonError

  /** `content.split('\n').slice(0, 5)`. */
  function ShownLines(content: string): seq<string>
  {
    Take(DataUploader.Split(content, '\n'), 5)
  }

  /** The row written for the line at `index`: its comma-separated pieces, untrimmed. */
  function LineRow(line: string, index: nat): Row
  {
    Row(index == 0, DataUploader.Split(line, ','))
  }

  /** The rows the `forEach` has written after the first `k` lines. */
  function RowsUpTo(lines: seq<string>, k: nat): seq<Row>
    requires k <= |lines|
  {
    if k == 0 then [] else RowsUpTo(lines, k - 1) + [LineRow(lines[k - 1], k - 1)]
  }

  function CsvTable(content: string): Preview
  {
    var lines := ShownLines(content);
    Table(RowsUpTo(lines, |lines|))
  }

  /** Row `j` is written for line `j`. */
  lemma {:induction false} RowsUpToAre(lines: seq<string>, k: nat)
    requires k <= |lines|
    ensures |RowsUpTo(lines, k)| == k
    ensures forall j :: 0 <= j < k ==> RowsUpTo(lines, k)[j] == LineRow(lines[j], j)
  {
    if k > 0 {
      RowsUpToAre(lines, k - 1);
    }
  }

  /** The first `k` pieces, joined again, begin the joined text. */
  lemma {:induction false} JoinPrefix(pieces: seq<string>, k: nat, c: char)
    requires 1 <= k <= |pieces|
    ensures StartsWith(DataUploader.Join(pieces, c), DataUploader.Join(pieces[..k], c))
  {
    if k > 1 {
      JoinPrefix(pieces[1..], k - 1, c);
      assert pieces[..k][1..] == pieces[1..][..k - 1];
      var rest, restK := DataUploader.Join(pieces[1..], c), DataUploader.Join(pieces[1..][..k - 1], c);
      assert DataUploader.Join(pieces, c) == pieces[0] + [c] + rest;
      assert DataUploader.Join(pieces[..k], c) == pieces[0] + [c] + restK;
      assert rest[..|restK|] == restK;
      assert (pieces[0] + [c] + rest)[..|pieces[0]| + 1 + |restK|] == pieces[0] + [c] + restK;
    }
  }

  /** The CSV preview is a table of one to five rows: the first line of the content as the header row,
      then the following lines as data rows, each row holding the pieces of its line. The lines shown
      are the beginning of the content. */
  lemma CsvTableShape(content: string)
    ensures var lines := DataUploader.Split(content, '\n');
            var rows := CsvTable(content).rows;
            |rows| == (if |lines| < 5 then |lines| else 5) &&
            1 <= |rows| <= 5 && rows[0].isHeader &&
            (forall j :: 0 <= j < |rows| ==> rows[j].isHeader == (j == 0) && DataUploader.Join(rows[j].cells, ',') == lines[j])
    ensures StartsWith(content, DataUploader.Join(ShownLines(content), '\n'))
  {
    var lines := ShownLines(content);
    RowsUpToAre(lines, |lines|);
    var all := DataUploader.Split(content, '\n');
    JoinPrefix(all, |lines|, '\n');
    assert all[..|lines|] == lines;
  }

  /** `previewCsvContent` with its `forEach` over the shown lines. */
  method BuildCsvPreview(content: string) returns (p: Preview)
    ensures p == CsvTable(content)
  {
    var lines := ShownLines(content);
    var rows: seq<Row> := [];
    for index := 0 to |lines|
      invariant rows == RowsUpTo(lines, index)
    {
      var cells := DataUploader.Split(lines[index], ',');
      rows := rows + [Row(index == 0, cells)];
    }
    p := Table(rows);
  }

  /** The JSON preview; `pretty` is `JSON.stringify(JSON.parse(content), null, 2)`, `None` when the
      parse throws. The text shown is at most its first 500 characters, and the truncation note is
      added exactly when something was cut off. */
  function JsonPreview(pretty: Option<string>): (p: Preview)
    ensures pretty.None? <==> p == JsonError
    ensures pretty.Some? ==> p.JsonText? && |p.shown| <= 500 && StartsWith(pretty.value, p.shown)
    ensures pretty.Some? ==> (p.truncated <==> p.shown != pretty.value) && (p.truncated <==> |pretty.value| > 500)
    ensures pretty.Some? && p.truncated ==> |p.shown| == 500
  {
    match pretty
    case None => JsonError
    case Some(text) => JsonText(Take(text, 500), |text| > 500)
  }

  /** The preview for a chosen file: the file's name decides between the table, the JSON text and the
      unsupported-format warning. */
  function PreviewFor(name: string, content: string, prettyJson: string -> Option<string>): Preview
  {
    if !Supported(name) then Unsupported
    else if EndsWith(name, ".csv") then CsvTable(content)
    else JsonPreview(prettyJson(content))
  }

  /** A name ending in ".csv" gets the table, one ending in ".json" (and not ".csv") the JSON text, any
      other the warning. */
  lemma PreviewForCases(name: string, content: string, prettyJson: string -> Option<string>)
    ensures PreviewFor(name, content, prettyJson) == Unsupported <==> !Supported(name)
    ensures PreviewFor(name, content, prettyJson).Table? <==> EndsWith(name, ".csv")
    ensures PreviewFor(name, content, prettyJson).JsonText? || PreviewFor(name, content, prettyJson).JsonError? <==>
              EndsWith(name, ".json") && !EndsWith(name, ".csv")
  {
    if EndsWith(name, ".csv") {
      assert name[|name| - 1] == ".csv"[3];
    }
  }

  /** This page reads the name as given, while the uploader page lower-cases it first: the two disagree
      on an upper-case extension. */
  lemma UploadPagesDisagreeOnCase()
    ensures !Supported("DATA.CSV") && DataUploader.ValidateFileType("DATA.CSV", "")
  {
    assert "DATA.CSV"[4..] == ".CSV";
    assert "DATA.CSV"[3..] == "A.CSV";
    assert Lower("DATA.CSV")[4..] == ".csv";
  }

  // ---------------------------------------------------------------- the page's state

  /** The state the handlers change: the chosen file's name, the file label, the selected facility, the
      preview, the submit button and the loading indicator. */
  datatype Page = Page(file: Option<string>, fileLabel: string, facility: string, preview: Option<Preview>,
                       submitDisabled: bool, loading: bool)

  /** `validateForm`'s rule: a file and a facility are both selected. */
  predicate FormValid(file: Option<string>, facility: string)
  {
    file.Some? && facility != ""
  }

  /** The file input's change handler, with the reader's load taken as done. `chosen` is the selected file's
      name and text, `None` when the selection is empty, which leaves everything but the file as it was. */
  function ChooseFile(pg: Page, chosen: Option<(string, string)>, prettyJson: string -> Option<string>): Page
  {
    match chosen
    case None => pg.(file := None)
    case Some((name, content)) =>
      pg.(file := Some(name), fileLabel := name, preview := Some(PreviewFor(name, content, prettyJson)),
          submitDisabled := !Supported(name))
  }

  /** The facility select's change handler. */
  function SelectFacility(pg: Page, value: string): Page
  {
    pg.(facility := value, submitDisabled := !FormValid(pg.file, value))
  }

  /** The submit handler: the loading indicator appears and the button is disabled. */
  function Submit(pg: Page): Page
  {
    pg.(loading := true, submitDisabled := true)
  }

  /** Choosing an unsupported file disables submit and shows the warning; choosing a supported one
      enables it, whether or not a facility is selected and even when its JSON does not parse. */
  lemma ChooseFileSubmit(pg: Page, name: string, content: string, prettyJson: string -> Option<string>)
    ensures var pg2 := ChooseFile(pg, Some((name, content)), prettyJson);
            (pg2.submitDisabled <==> !Supported(name)) &&
            (!Supported(name) ==> pg2.preview == Some(Unsupported)) &&
            pg2.file == Some(name) && pg2.fileLabel == name && pg2.facility == pg.facility && pg2.loading == pg.loading
  {
  }

  /** After a facility is selected, submit is enabled exactly when a file and a facility are selected. */
  lemma SelectFacilitySubmit(pg: Page, value: string)
    ensures !SelectFacility(pg, value).submitDisabled <==> pg.file.Some? && value != ""
    ensures SelectFacility(pg, value) == pg.(facility := value, submitDisabled := SelectFacility(pg, value).submitDisabled)
  {
  }

  /** The facility rule does not look at the file's type: selecting a facility after an unsupported file
      enables submit again. */
  lemma FacilityReenablesUnsupported(pg: Page, prettyJson: string -> Option<string>)
    ensures var pg2 := ChooseFile(pg, Some(("notes.txt", "")), prettyJson);
            pg2.submitDisabled && !SelectFacility(pg2, "1").submitDisabled
  {
    assert "notes.txt"[5..] == ".txt";
    assert "notes.txt"[4..] == "s.txt";
  }

  /** `Page` kept in the page's elements. */
  class UploadPage {
    var file: Option<string>
    var fileLabel: string
    var facility: string
    var preview: Option<Preview>
    var submitDisabled: bool
    var loading: bool

    function State(): Page
      reads this
    {
      Page(file, fileLabel, facility, preview, submitDisabled, loading)
    }

    constructor (fileLabel: string, facility: string, submitDisabled: bool)
      ensures State() == Page(None, fileLabel, facility, None, submitDisabled, false)
    {
      file, this.fileLabel, this.facility, preview := None, fileLabel, facility, None;
      this.submitDisabled, loading := submitDisabled, false;
    }

    method OnFileChange(chosen: Option<(string, string)>, prettyJson: string -> Option<string>)
      modifies this
      ensures State() == ChooseFile(old(State()), chosen, prettyJson)
    {
      if chosen.None? {
        file := None;
        return;
      }
      var (name, content) := chosen.value;
      file, fileLabel := Some(name), name;
      if EndsWith(name, ".csv") || EndsWith(name, ".json") {
        var p;
        if EndsWith(name, ".csv") {
          p := BuildCsvPreview(content);
        } else {
          p := JsonPreview(prettyJson(content));
        }
        preview := Some(p);
        submitDisabled := false;
      } else {
        preview := Some(Unsupported);
        submitDisabled := true;
      }
    }

    method OnFacilityChange(value: string)
      modifies this
      ensures State() == SelectFacility(old(State()), value)
    {
      facility := value;
      var fileValid := file.Some?;
      var facilityValid := value != "";
      submitDisabled := !(fileValid && facilityValid);
    }

    method OnSubmit()
      modifies this
      ensures State() == Submit(old(State()))
    {
      loading := true;
      submitDisabled := true;
    }
  }
}
