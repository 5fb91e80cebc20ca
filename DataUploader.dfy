/** The upload page's client checks: the file-type test, the CSV and JSON previews, the
    direct-entry validation and the antibiotic fields generated per sample type. Previews are modelled
    as the values placed in the page, not as HTML text. */
module DataUploader {
  import opened Common
  import opened Utils

  // ---------------------------------------------------------------- JavaScript text helpers

  /** `s.split(c)`: the pieces between the separators, always at least one. */
  function Split(s: string, c: char): (r: seq<string>)
    ensures |r| >= 1
    ensures forall k :: 0 <= k < |r| ==> c !in r[k]
    ensures Join(r, c) == s
    decreases |s|
  {
    match FirstIndex(s, (x: char) => x == c)
    case None => [s]
    case Some(i) =>
      var rest := Split(s[i + 1..], c);
      assert s == s[..i] + [c] + s[i + 1..];
      [s[..i]] + rest
  }

  /** The pieces put back together with the separator between them. */
  function Join(pieces: seq<string>, c: char): string
  {
    if |pieces| <= 1 then (if pieces == [] then "" else pieces[0]) else pieces[0] + [c] + Join(pieces[1..], c)
  }

  /** The number of pieces is one more than the number of separators. */
  lemma {:induction false} SplitCount(s: string, c: char)
    ensures |Split(s, c)| == Count(s, (x: char) => x == c) + 1
    decreases |s|
  {
    match FirstIndex(s, (x: char) => x == c)
    case None =>
      CountZero(s, (x: char) => x == c);
    case Some(i) =>
      SplitCount(s[i + 1..], c);
      assert s == s[..i] + s[i..];
      CountAppend(s[..i], s[i..], (x: char) => x == c);
      CountZero(s[..i], (x: char) => x == c);
      assert s[i..] == [c] + s[i + 1..];
  }

  /** The characters `String.prototype.trim` removes (the Unicode space separators beyond these are not modelled). */
  predicate IsSpace(ch: char)
  {
    ch == ' ' || ch == '\t' || ch == '\n' || ch == '\r' || ch == '\U{000B}' || ch == '\U{000C}' ||
    ch == '\U{00A0}' || ch == '\U{FEFF}' || ch == '\U{2028}' || ch == '\U{2029}'
  }

  function TrimStart(s: string): (r: string)
    ensures |r| <= |s| && r == s[|s| - |r|..]
    ensures forall i :: 0 <= i < |s| - |r| ==> IsSpace(s[i])
    ensures r != [] ==> !IsSpace(r[0])
  {
    if s != [] && IsSpace(s[0]) then TrimStart(s[1..]) else s
  }

  function TrimEnd(s: string): (r: string)
    ensures |r| <= |s| && r == s[..|r|]
    ensures forall i :: |r| <= i < |s| ==> IsSpace(s[i])
    ensures r != [] ==> !IsSpace(r[|r| - 1])
  {
    if s != [] && IsSpace(s[|s| - 1]) then TrimEnd(s[..|s| - 1]) else s
  }

  /** `s.trim()`: the longest middle part with no space at either end. */
  function Trim(s: string): (r: string)
    ensures r == "" <==> forall i :: 0 <= i < |s| ==> IsSpace(s[i])
    ensures r != "" ==> !IsSpace(r[0]) && !IsSpace(r[|r| - 1])
  {
    TrimParts(s);
    TrimEnd(TrimStart(s))
  }

  lemma TrimParts(s: string)
    ensures TrimEnd(TrimStart(s)) == "" <==> forall i :: 0 <= i < |s| ==> IsSpace(s[i])
  {
    var a := TrimStart(s);
    if a != [] {
      var k := |s| - |a|;
      assert s[k] == a[0];
      TrimEndKeepsFirst(a);
    }
  }

  /** Nothing is trimmed from the end of a text that begins with a non-space. */
  lemma TrimEndKeepsFirst(a: string)
    requires a != [] && !IsSpace(a[0])
    ensures TrimEnd(a) != []
  {
  }

  // ---------------------------------------------------------------- validateFileType

  /** `validateFileType`: the MIME type is one of the two, or the lower-cased name has one of the two endings. */
  function ValidateFileType(name: string, mimeType: string): bool
  {
    mimeType in ["text/csv", "application/json"] || EndsWith(Lower(name), ".csv") || EndsWith(Lower(name), ".json")
  }

  /** Lower-casing commutes with slicing. */
  lemma LowerSlice(s: string, a: nat)
    requires a <= |s|
    ensures Lower(s)[a..] == Lower(s[a..])
  {
  }

  /** Only '.' lower-cases to '.'. */
  lemma LowerDot(c: char)
    ensures LowerChar(c) == '.' <==> c == '.'
  {
  }

  /** Where the lower-cased text has no '.', neither has the text. */
  lemma NoDotAfter(name: string, i: nat, ext: string)
    requires i <= |name| && Lower(name)[i..] == ext && '.' !in ext
    ensures '.' !in name[i..]
  {
    forall j | i <= j < |name|
      ensures name[j] != '.'
    {
      assert Lower(name)[j] == ext[j - i];
      LowerDot(name[j]);
    }
  }

  /** The position where the ending starts holds the '.'. */
  lemma DotBeforeEnding(name: string, suffix: string)
    requires |suffix| >= 1 && suffix[0] == '.' && EndsWith(Lower(name), suffix)
    ensures name[|name| - |suffix|] == '.'
  {
    assert Lower(name)[|name| - |suffix|] == suffix[0];
    LowerDot(name[|name| - |suffix|]);
  }

  /** The text after the first character of an ending is the end of the text. */
  lemma EndingTail(low: string, suffix: string)
    requires |suffix| >= 1 && EndsWith(low, suffix)
    ensures low[|low| - |suffix| + 1..] == suffix[1..]
  {
    assert low[|low| - |suffix| + 1..] == low[|low| - |suffix|..][1..];
  }

  /** A lower-cased name ending in '.' and a text without '.' has its last '.' where that ending starts. */
  lemma EndingDotIsLast(name: string, suffix: string)
    requires |suffix| >= 1 && suffix[0] == '.' && '.' !in suffix[1..]
    requires EndsWith(Lower(name), suffix)
    ensures LastDotAt(name, |name| - |suffix|)
  {
    DotBeforeEnding(name, suffix);
    EndingTail(Lower(name), suffix);
    NoDotAfter(name, |name| - |suffix| + 1, suffix[1..]);
  }

  /** After that '.' the name, lower-cased, is the rest of the ending. */
  lemma EndingExtension(name: string, suffix: string)
    requires |suffix| >= 1 && EndsWith(Lower(name), suffix)
    ensures Lower(name[|name| - |suffix| + 1..]) == suffix[1..]
  {
    EndingTail(Lower(name), suffix);
    LowerSlice(name, |name| - |suffix| + 1);
  }

  /** A lower-cased name ending in '.' and an allowed extension has that extension after its last '.'. */
  lemma EndingIsExtension(name: string, suffix: string)
    requires |suffix| >= 1 && suffix[0] == '.' && suffix[1..] in AllowedExtensions && '.' !in suffix[1..]
    requires EndsWith(Lower(name), suffix)
    ensures AllowedFile(name)
  {
    EndingDotIsLast(name, suffix);
    EndingExtension(name, suffix);
  }

  /** An allowed extension after the last '.' makes the lower-cased name end in '.' and that extension. */
  lemma ExtensionIsEnding(name: string, i: int)
    requires LastDotAt(name, i) && Lower(name[i + 1..]) in AllowedExtensions
    ensures EndsWith(Lower(name), ".csv") || EndsWith(Lower(name), ".json")
  {
    var low := Lower(name);
    var ext := Lower(name[i + 1..]);
    assert low[i..] == "." + ext by {
      LowerSlice(name, i + 1);
      assert low[i..] == [low[i]] + low[i + 1..];
    }
    if ext == "csv" {
      EndsWithAt(low, i, ".csv");
    } else {
      EndsWithAt(low, i, ".json");
    }
  }

  /** A text whose part from `i` on is `suffix` ends with it. */
  lemma EndsWithAt(s: string, i: nat, suffix: string)
    requires i <= |s| && s[i..] == suffix
    ensures EndsWith(s, suffix)
  {
  }

  /** On the name alone the client agrees with the server's `allowed_file`. */
  lemma FileNameChecksAgree(name: string)
    ensures EndsWith(Lower(name), ".csv") || EndsWith(Lower(name), ".json") <==> AllowedFile(name)
  {
    if EndsWith(Lower(name), ".csv") {
      assert ".csv"[1..] == "csv";
      EndingIsExtension(name, ".csv");
    } else if EndsWith(Lower(name), ".json") {
      assert ".json"[1..] == "json";
      EndingIsExtension(name, ".json");
    }
    if AllowedFile(name) {
      var i :| LastDotAt(name, i) && Lower(name[i + 1..]) in AllowedExtensions;
      ExtensionIsEnding(name, i);
    }
  }

  /** The client accepts a file exactly when its MIME type is CSV or JSON or the server would accept its
      name; so every name the server accepts passes the client whatever the MIME type. */
  lemma ValidateFileTypeIff(name: string, mimeType: string)
    ensures ValidateFileType(name, mimeType) <==> mimeType in ["text/csv", "application/json"] || AllowedFile(name)
    ensures AllowedFile(name) ==> ValidateFileType(name, mimeType)
  {
    FileNameChecksAgree(name);
  }

  /** But the client also trusts the MIME type: a `.txt` file announced as CSV passes the client and is
      refused by the server. */
  lemma MimeTypeBypassesExtension()
    ensures ValidateFileType("data.txt", "text/csv") && !AllowedFile("data.txt")
  {
    assert LastIndexOf("data.txt", '.') == Some(4);
    assert "data.txt"[5..] == "txt";
  }

  // ---------------------------------------------------------------- previewCsvContent

  /** `line.split(',').map(c => c.trim())`. */
  function Cells(line: string): seq<string>
  {
    var pieces := Split(line, ',');
    seq(|pieces|, k requires 0 <= k < |pieces| => Trim(pieces[k]))
  }

  predicate NotBlank(line: string) { Trim(line) != "" }

  function NotBlankLine(): string -> bool { (line: string) => NotBlank(line) }

  /** The preview: a warning, or the header cells, the data rows and the row-count footer. */
  datatype CsvPreview = CsvWarning | CsvTable(headers: seq<string>, rows: seq<seq<string>>, footer: Option<nat>)

  function CellsOf(): string -> seq<string> { (line: string) => Cells(line) }

  /** `previewCsvContent` on the content's lines: a warning without a second line; otherwise the first
      line's cells as headers, the cells of the non-blank lines among lines 1 to 5 as rows, and the
      footer past six lines. */
  function PreviewOfLines(lines: seq<string>): CsvPreview
  {
    if |lines| <= 1 then CsvWarning
    else
      var maxRows := if |lines| < 6 then |lines| else 6;
      CsvTable(Cells(lines[0]), Select(lines[1..maxRows], NotBlankLine(), CellsOf()), if |lines| > 6 then Some(|lines| - 1) else None)
  }

  function CsvPreviewOf(content: string): CsvPreview
  {
    PreviewOfLines(Split(content, '\n'))
  }

  /** The content has a second line exactly when it holds a newline. */
  lemma CsvWarningIff(content: string)
    ensures CsvPreviewOf(content) == CsvWarning <==> '\n' !in content
  {
    SplitCount(content, '\n');
    CountZero(content, (x: char) => x == '\n');
    if '\n' in content {
      var i :| 0 <= i < |content| && content[i] == '\n';
      CountPositive(content, (x: char) => x == '\n', content[i]);
    }
  }

  /** The non-blank lines among lines 1 to 5. */
  function Kept(lines: seq<string>): seq<string>
    requires |lines| > 1
  {
    Filter(lines[1..if |lines| < 6 then |lines| else 6], NotBlankLine())
  }

  /** A table holds at most five data rows: the cells of the non-blank lines 1 to 5, in order. */
  lemma PreviewTableRows(lines: seq<string>)
    requires |lines| > 1
    ensures PreviewOfLines(lines).CsvTable?
    ensures |PreviewOfLines(lines).rows| == |Kept(lines)| <= 5
    ensures forall j :: 0 <= j < |Kept(lines)| ==> PreviewOfLines(lines).rows[j] == Cells(Kept(lines)[j])
  {
    var m := if |lines| < 6 then |lines| else 6;
    SelectAre(lines[1..m], NotBlankLine(), CellsOf());
  }

  /** The first line gives the headers, and the footer reports all lines but the header exactly when there
      are more than six lines. */
  lemma PreviewTableFooter(lines: seq<string>)
    requires |lines| > 1
    ensures PreviewOfLines(lines).CsvTable? && PreviewOfLines(lines).headers == Cells(lines[0])
    ensures PreviewOfLines(lines).footer.Some? <==> |lines| > 6
    ensures PreviewOfLines(lines).footer.Some? ==> PreviewOfLines(lines).footer.value == |lines| - 1
  {
  }

  /** One more line either adds its cells as a row or, when blank, adds nothing. */
  lemma SelectStep(lines: seq<string>, i: nat)
    requires 1 <= i < |lines|
    ensures Select(lines[1..i + 1], NotBlankLine(), CellsOf()) ==
            Select(lines[1..i], NotBlankLine(), CellsOf()) + if Trim(lines[i]) != "" then [Cells(lines[i])] else []
  {
    assert lines[1..i + 1][..i - 1] == lines[1..i];
    assert NotBlankLine()(lines[i]) == (Trim(lines[i]) != "");
  }

  /** `previewCsvContent`, with its row loop. */
  method PreviewCsvContent(content: string) returns (p: CsvPreview)
    ensures p == CsvPreviewOf(content)
  {
    var lines := Split(content, '\n');
    if |lines| <= 1 {
      return CsvWarning;
    }
    var headers := Cells(lines[0]);
    var maxRows := if |lines| < 6 then |lines| else 6;
    var rows: seq<seq<string>> := [];
    var i := 1;
    while i < maxRows
      invariant 1 <= i <= maxRows
      invariant rows == Select(lines[1..i], NotBlankLine(), CellsOf())
    {
      SelectStep(lines, i);
      if Trim(lines[i]) != "" {
        rows := rows + [Cells(lines[i])];
      }
      i := i + 1;
    }
    var footer := if |lines| > 6 then Some(|lines| - 1) else None;
    return CsvTable(headers, rows, footer);
  }

  // ---------------------------------------------------------------- previewJsonContent

  /** What `JSON.parse` gave: an array (its items' texts) or a single value. */
  datatype JsonDoc = JsonArray(items: seq<string>) | JsonValue(text: string)

  datatype JsonPreview = JsonError | ArrayPreview(shown: seq<string>, more: Option<nat>) | ValuePreview(text: string)

  /** `previewJsonContent`; `None` is a parse error. */
  function JsonPreviewOf(parsed: Option<JsonDoc>): (r: JsonPreview)
    ensures parsed.None? <==> r == JsonError
    ensures parsed.Some? && parsed.value.JsonArray? ==> r.ArrayPreview?
  {
    match parsed
    case None => JsonError
    case Some(JsonValue(text)) => ValuePreview(text)
    case Some(JsonArray(items)) =>
      var itemsToShow := if |items| < 3 then |items| else 3;
      ArrayPreview(items[..itemsToShow], if |items| > itemsToShow then Some(|items| - itemsToShow) else None)
  }

  /** An array preview shows the first min(n, 3) items and counts the rest exactly when there is a rest. */
  lemma JsonArrayPreview(items: seq<string>)
    ensures var r := JsonPreviewOf(Some(JsonArray(items)));
            |r.shown| == (if |items| < 3 then |items| else 3) && items == r.shown + items[|r.shown|..] &&
            (r.more.Some? <==> |items| > 3) && (r.more.Some? ==> |r.shown| + r.more.value == |items|)
  {
    var r := JsonPreviewOf(Some(JsonArray(items)));
    assert items == r.shown + items[|r.shown|..];
  }

  // ---------------------------------------------------------------- direct-entry validation

  /** Some antibiotic select has a result. */
  predicate HasResult(antibioticValues: seq<string>)
  {
    exists k :: 0 <= k < |antibioticValues| && antibioticValues[k] != ""
  }

  /** The messages the submit handler shows, in order: one per empty required field, then the form error. */
  function EntryErrors(organization: string, pathogen: string, collectionDate: string, antibioticValues: seq<string>): seq<string>
  {
    (if organization == "" then ["Please select an organization"] else []) +
    (if pathogen == "" then ["Please select a pathogen"] else []) +
    (if collectionDate == "" then ["Please enter a collection date"] else []) +
    (if HasResult(antibioticValues) then [] else ["Please enter at least one antibiotic result"])
  }

  /** The submit handler: `isValid` starts true and each failed check clears it. */
  method ValidateDirectEntry(organization: string, pathogen: string, collectionDate: string, antibioticValues: seq<string>)
    returns (isValid: bool, messages: seq<string>)
    ensures messages == EntryErrors(organization, pathogen, collectionDate, antibioticValues)
    ensures isValid <==> messages == []
  {
    isValid := true;
    messages := [];
    if organization == "" {
      messages := messages + ["Please select an organization"];
      isValid := false;
    }
    if pathogen == "" {
      messages := messages + ["Please select a pathogen"];
      isValid := false;
    }
    if collectionDate == "" {
      messages := messages + ["Please enter a collection date"];
      isValid := false;
    }
    var hasAntibioticData := false;
    for k := 0 to |antibioticValues|
      invariant hasAntibioticData <==> exists j :: 0 <= j < k && antibioticValues[j] != ""
    {
      if antibioticValues[k] != "" {
        hasAntibioticData := true;
      }
    }
    if !hasAntibioticData {
      messages := messages + ["Please enter at least one antibiotic result"];
      isValid := false;
    }
  }

  /** A result at some position is a non-empty value among the selects. */
  lemma HasResultMembers(antibioticValues: seq<string>)
    ensures HasResult(antibioticValues) <==> exists v :: v in antibioticValues && v != ""
  {
    if HasResult(antibioticValues) {
      var k :| 0 <= k < |antibioticValues| && antibioticValues[k] != "";
      assert antibioticValues[k] in antibioticValues;
    }
    if v :| v in antibioticValues && v != "" {
      var k :| 0 <= k < |antibioticValues| && antibioticValues[k] == v;
      assert HasResult(antibioticValues);
    }
  }

  /** The entry is submitted exactly when the three fields are filled and some antibiotic has a result;
      each missing piece adds exactly one message. */
  lemma EntryErrorsNone(organization: string, pathogen: string, collectionDate: string, antibioticValues: seq<string>)
    ensures EntryErrors(organization, pathogen, collectionDate, antibioticValues) == [] <==>
              organization != "" && pathogen != "" && collectionDate != "" && exists v :: v in antibioticValues && v != ""
    ensures |EntryErrors(organization, pathogen, collectionDate, antibioticValues)| ==
              (if organization == "" then 1 else 0) + (if pathogen == "" then 1 else 0) +
              (if collectionDate == "" then 1 else 0) + (if HasResult(antibioticValues) then 0 else 1)
  {
    HasResultMembers(antibioticValues);
  }

  // ---------------------------------------------------------------- antibiotic fields per sample type

  const DefaultAntibiotics: seq<string> := ["Penicillin", "Ceftriaxone", "Ciprofloxacin", "Gentamicin", "Vancomycin"]

  /** `antibioticsBySampleType[sampleType] || [default list]`. */
  function AntibioticsFor(sampleType: string): seq<string>
  {
    if sampleType == "blood" then ["Penicillin", "Ceftriaxone", "Meropenem", "Vancomycin", "Gentamicin"]
    else if sampleType == "urine" then ["Ciprofloxacin", "Nitrofurantoin", "Trimethoprim-Sulfamethoxazole", "Amoxicillin-Clavulanate"]
    else if sampleType == "stool" then ["Ciprofloxacin", "Azithromycin", "Ampicillin", "Ceftriaxone"]
    else if sampleType == "sputum" then ["Azithromycin", "Doxycycline", "Levofloxacin", "Amoxicillin-Clavulanate"]
    else if sampleType == "wound" then ["Clindamycin", "Cefazolin", "Gentamicin", "Vancomycin", "Trimethoprim-Sulfamethoxazole"]
    else DefaultAntibiotics
  }

  const SampleTypes: seq<string> := ["blood", "urine", "stool", "sputum", "wound"]

  /** A sample type outside the five known ones gets the default five; every list is non-empty. */
  lemma AntibioticsForDefault(sampleType: string)
    ensures sampleType !in SampleTypes ==> AntibioticsFor(sampleType) == DefaultAntibiotics
    ensures 4 <= |AntibioticsFor(sampleType)| <= 5
  {
  }

  predicate IsSlugChar(c: char) { 'a' <= c <= 'z' || '0' <= c <= '9' }

  /** `.replace(/[^a-z0-9]/g, '_')`. */
  function Slug(s: string): (r: string)
    ensures |r| == |s|
    ensures forall i :: 0 <= i < |s| ==> r[i] == (if IsSlugChar(s[i]) then s[i] else '_')
  {
    seq(|s|, i requires 0 <= i < |s| => if IsSlugChar(s[i]) then s[i] else '_')
  }

  /** The id and name of the result select generated for an antibiotic. */
  function FieldId(antibiotic: string): string
  {
    "antibiotic_" + Slug(Lower(antibiotic))
  }

  /** A field id is 11 characters longer than the name, starts with the prefix the validation's
      `select[name^="antibiotic_"]` looks for, uses only [a-z0-9_], and keeps lower-case letters and digits. */
  lemma FieldIdShape(antibiotic: string)
    ensures |FieldId(antibiotic)| == |antibiotic| + 11
    ensures StartsWith(FieldId(antibiotic), "antibiotic_")
    ensures forall i :: 0 <= i < |FieldId(antibiotic)| ==> IsSlugChar(FieldId(antibiotic)[i]) || FieldId(antibiotic)[i] == '_'
    ensures forall i :: 0 <= i < |antibiotic| && IsSlugChar(antibiotic[i]) ==> FieldId(antibiotic)[11 + i] == antibiotic[i]
    ensures forall i :: 0 <= i < |antibiotic| && 'A' <= antibiotic[i] <= 'Z' ==> FieldId(antibiotic)[11 + i] == LowerChar(antibiotic[i])
  {
    var f := FieldId(antibiotic);
    assert f[..11] == "antibiotic_";
    forall i | 0 <= i < |f|
      ensures IsSlugChar(f[i]) || f[i] == '_'
    {
      if i >= 11 {
        assert f[i] == Slug(Lower(antibiotic))[i - 11];
      }
    }
  }
}
