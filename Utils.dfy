/** Upload-name check, patient-identifier hashing, date-string parsing over a fixed
    list of formats, and the regional resistance-risk score. */
module Utils {
  import opened Common
  import opened Calendar
  import opened Models

  // ---------------------------------------------------------------- allowed_file

  const AllowedExtensions: set<string> := {"csv", "json"}

  /** Position `i` holds the last '.' of the name. */
  predicate LastDotAt(filename: string, i: int)
  {
    0 <= i < |filename| && filename[i] == '.' && '.' !in filename[i + 1..]
  }

  /** The name has a '.', and the text after its last '.', lower-cased, is an allowed extension. */
  function AllowedFile(filename: string): (ok: bool)
    ensures ok <==> exists i :: LastDotAt(filename, i) && Lower(filename[i + 1..]) in AllowedExtensions
    ensures '.' !in filename ==> !ok
  {
    match LastIndexOf(filename, '.')
    case None =>
      assert forall j :: 0 <= j < |filename| ==> filename[j] != '.';
      false
    case Some(i) =>
      LastDotOnly(filename, i);
      Lower(filename[i + 1..]) in AllowedExtensions
  }

  /** The last '.' found is the only position with no '.' after it, so the extension it starts is the one meant. */
  lemma LastDotOnly(filename: string, i: nat)
    requires LastIndexOf(filename, '.') == Some(i)
    ensures (Lower(filename[i + 1..]) in AllowedExtensions) <==>
            exists j :: LastDotAt(filename, j) && Lower(filename[j + 1..]) in AllowedExtensions
  {
    assert LastDotAt(filename, i);
    forall j | LastDotAt(filename, j) ensures j == i {
      LastIndexOfUnique(filename, '.', j);
    }
  }

  /** Only the last extension matters, and its case does not. */
  lemma AllowedFileLastExtension()
    ensures AllowedFile("a.tar.JSON")
  {
    var f := "a.tar.JSON";
    assert f[6..] == "JSON";
    assert '.' !in f[6..];
    LastIndexOfUnique(f, '.', 5);
    assert Lower("JSON") == "json";
  }

  /** A bare extension without a '.' is refused. */
  lemma AllowedFileNeedsDot()
    ensures !AllowedFile("csv")
  {
    assert '.' !in "csv";
  }

  /** An allowed extension followed by another one is refused. */
  lemma AllowedFileDoubleExtension()
    ensures !AllowedFile("report.csv.exe")
  {
    var f := "report.csv.exe";
    assert LastIndexOf(f, '.') == Some(10);
    assert f[11..] == "exe";
    assert Lower("exe") == "exe";
  }

  // ---------------------------------------------------------------- hash_patient_id

  const DefaultSalt: string := "default_salt"

  /** A falsy salt argument is replaced by the environment's PATIENT_ID_SALT, or the default when that is unset. */
  function EffectiveSalt(salt: Option<string>, env: Option<string>): (s: string)
    ensures salt.Some? && salt.value != "" ==> s == salt.value
    ensures (salt.None? || salt.value == "") && env.Some? ==> s == env.value
    ensures (salt.None? || salt.value == "") && env.None? ==> s == DefaultSalt
  {
    if salt.Some? && salt.value != "" then salt.value
    else if env.Some? then env.value
    else DefaultSalt
  }

  /** The digest of the identifier followed by the effective salt; `h` stands for hex SHA-256. */
  function HashPatientId(h: string -> string, patientId: string, salt: Option<string>, env: Option<string>): string
  {
    h(patientId + EffectiveSalt(salt, env))
  }

  /** The hash sees only the concatenation: splitting it differently between identifier and salt changes nothing. */
  lemma HashOfConcatenation(h: string -> string, id1: string, salt1: string, id2: string, salt2: string, env: Option<string>)
    requires salt1 != "" && salt2 != "" && id1 + salt1 == id2 + salt2
    ensures HashPatientId(h, id1, Some(salt1), env) == HashPatientId(h, id2, Some(salt2), env)
  {
  }

  lemma HashConcatenationExample(h: string -> string, env: Option<string>)
    ensures HashPatientId(h, "ab", Some("c"), env) == HashPatientId(h, "a", Some("bc"), env)
  {
    assert "ab" + "c" == "a" + "bc";
  }

  /** Without a salt argument, the environment salt is used when set; `""` counts as no salt. */
  lemma HashFalsySalt(h: string -> string, id: string, salt: Option<string>, env: Option<string>)
    requires salt.None? || salt.value == ""
    ensures env.Some? ==> HashPatientId(h, id, salt, env) == h(id + env.value)
    ensures env.None? ==> HashPatientId(h, id, salt, env) == h(id + "default_salt")
  {
  }

  // ---------------------------------------------------------------- format_date

  /** The six `strptime` formats, in the order they are tried. */
  datatype DateFormat =
    | YmdDash       // %Y-%m-%d
    | YmdSlash      // %Y/%m/%d
    | DmyDash       // %d-%m-%Y
    | DmySlash      // %d/%m/%Y
    | YmdTimeDash   // %Y-%m-%d %H:%M:%S
    | YmdTimeSlash  // %Y/%m/%d %H:%M:%S

  const Formats: seq<DateFormat> := [YmdDash, YmdSlash, DmyDash, DmySlash, YmdTimeDash, YmdTimeSlash]

  predicate DayFirst(f: DateFormat) { f == DmyDash || f == DmySlash }

  predicate HasTime(f: DateFormat) { f == YmdTimeDash || f == YmdTimeSlash }

  /** No day-first format accepts a time of day. */
  lemma NoDayFirstWithTime()
    ensures forall f :: f in Formats && DayFirst(f) ==> !HasTime(f)
    ensures |Formats| == 6
  {
  }

  /** The first successful parse among `fmts`, tried in order. */
  function TryFormats(parse: (DateFormat, string) -> Option<DateTime>, fmts: seq<DateFormat>, s: string): Option<DateTime>
  {
    if fmts == [] then None
    else if parse(fmts[0], s).Some? then parse(fmts[0], s)
    else TryFormats(parse, fmts[1..], s)
  }

  /** Trying formats in order fails exactly when every format fails, and otherwise yields the parse of the
      first format that succeeds. */
  lemma {:induction false} TryFormatsFirst(parse: (DateFormat, string) -> Option<DateTime>, fmts: seq<DateFormat>, s: string)
    ensures TryFormats(parse, fmts, s).None? <==> forall i :: 0 <= i < |fmts| ==> parse(fmts[i], s).None?
    ensures TryFormats(parse, fmts, s).Some? ==>
              exists i :: 0 <= i < |fmts| && parse(fmts[i], s) == TryFormats(parse, fmts, s) &&
                          forall j :: 0 <= j < i ==> parse(fmts[j], s).None?
  {
    if fmts != [] && parse(fmts[0], s).None? {
      var r := TryFormats(parse, fmts[1..], s);
      TryFormatsFirst(parse, fmts[1..], s);
      if r.Some? {
        var i :| 0 <= i < |fmts| - 1 && parse(fmts[1..][i], s) == r &&
                 forall j :: 0 <= j < i ==> parse(fmts[1..][j], s).None?;
        assert parse(fmts[i + 1], s) == r;
        forall j | 0 <= j < i + 1 ensures parse(fmts[j], s).None? {
          if j > 0 { assert fmts[j] == fmts[1..][j - 1]; }
        }
      } else {
        forall i | 0 <= i < |fmts| ensures parse(fmts[i], s).None? {
          if i > 0 { assert fmts[i] == fmts[1..][i - 1]; }
        }
      }
    }
  }

  /** `format_date`: the value of the first of the six formats that parses `s`, or an error when none does.
      `parse(f, s)` is `strptime(s, f)`, `None` where it raises ValueError. */
  function FormatDate(parse: (DateFormat, string) -> Option<DateTime>, s: string): (r: Result<DateTime, string>)
  {
    match TryFormats(parse, Formats, s)
    case None => Err("Date format not recognized: " + s)
    case Some(d) => Ok(d)
  }

  /** The error names the unreadable text and is raised exactly when all six formats fail; otherwise the value
      is that of the first format that parses. */
  lemma FormatDateFirst(parse: (DateFormat, string) -> Option<DateTime>, s: string)
    ensures FormatDate(parse, s).Err? <==> forall i :: 0 <= i < 6 ==> parse(Formats[i], s).None?
    ensures FormatDate(parse, s).Err? ==> FormatDate(parse, s).error == "Date format not recognized: " + s
    ensures FormatDate(parse, s).Ok? ==>
              exists i :: 0 <= i < 6 && parse(Formats[i], s) == Some(FormatDate(parse, s).value) &&
                          forall j :: 0 <= j < i ==> parse(Formats[j], s).None?
  {
    TryFormatsFirst(parse, Formats, s);
  }

  lemma FormatDateFirstWins(parse: (DateFormat, string) -> Option<DateTime>, s: string)
    requires parse(YmdDash, s).Some?
    ensures FormatDate(parse, s) == Ok(parse(YmdDash, s).value)
  {
  }

  // ---------------------------------------------------------------- calculate_resistance_risk

  /** Profiles of `pathogenId` reported by facilities whose state equals `region` (NULL matches NULL). */
  function InRiskScope(pathogenId: nat, region: Option<string>): Obs -> bool
  {
    (o: Obs) => o.profile.pathogenId == pathogenId && o.facility.state == region
  }

  function ResistantInRiskScope(pathogenId: nat, region: Option<string>): Obs -> bool
  {
    (o: Obs) => o.profile.pathogenId == pathogenId && o.facility.state == region && Resistant(o)
  }

  function RiskTotal(t: Tables, pathogenId: nat, region: Option<string>): nat
  {
    Count(Join(t), InRiskScope(pathogenId, region))
  }

  function RiskResistant(t: Tables, pathogenId: nat, region: Option<string>): nat
  {
    Count(Join(t), ResistantInRiskScope(pathogenId, region))
  }

  lemma RiskResistantAtMostTotal(t: Tables, pathogenId: nat, region: Option<string>)
    ensures RiskResistant(t, pathogenId, region) <= RiskTotal(t, pathogenId, region)
  {
    CountMonotone(Join(t), ResistantInRiskScope(pathogenId, region), InRiskScope(pathogenId, region));
  }

  /** The share of resistant results in scope as a percentage, 0 when nothing is in scope. */
  function CalculateResistanceRisk(t: Tables, pathogenId: nat, region: Option<string>): (risk: real)
    ensures 0.0 <= risk <= 100.0
    ensures RiskTotal(t, pathogenId, region) == 0 ==> risk == 0.0
  {
    var resistant := RiskResistant(t, pathogenId, region);
    var total := RiskTotal(t, pathogenId, region);
    RiskResistantAtMostTotal(t, pathogenId, region);
    Percent(resistant, total)
  }

  /** With results in scope, the risk is exactly a hundred times the resistant share. */
  lemma ResistanceRiskScaled(t: Tables, pathogenId: nat, region: Option<string>)
    requires RiskTotal(t, pathogenId, region) > 0
    ensures CalculateResistanceRisk(t, pathogenId, region) * RiskTotal(t, pathogenId, region) as real ==
            100.0 * RiskResistant(t, pathogenId, region) as real
  {
    PercentScaledAs(CalculateResistanceRisk(t, pathogenId, region), RiskResistant(t, pathogenId, region),
                    RiskTotal(t, pathogenId, region));
  }
}
