/**
 * The import command (`translations:import`): read the rows of the
 * translation table into one key-to-value array per language, expand each
 * language's dotted keys back into a nested array with `array_set`, and plan
 * one translation file per top-level key, with the `vendor` subtree written
 * to the vendor folders.
 */
module Import {
  import opened Wrappers
  import opened OrderedMaps
  import opened PhpStrings
  import opened LangTree
  import opened FileWriting

  type Languages = OrderedMap<OrderedMap<string>>

  // ---- readCsv (ImportLanguages.php:85-119) ----

  /** `array_shift($data)`: the translation key ("" stands for the `null` of a row without cells). */
  function TranslationKey(row: seq<string>): string
  {
    if row == [] then "" else row[0]
  }

  /** What is left of `$data` after `array_shift`, re-indexed from 0. */
  function Cells(row: seq<string>): seq<string>
  {
    if row == [] then [] else row[1..]
  }

  /** The header loop's `$columnToLanguageMap[$k] = $v` for every non-empty cell. */
  function HeaderColumns(columns: map<nat, string>, cells: seq<string>): map<nat, string>
    decreases |cells|
  {
    if cells == [] then columns
    else
      var n := |cells| - 1;
      var m := HeaderColumns(columns, cells[..n]);
      if IsEmpty(cells[n]) then m else m[n := cells[n]]
  }

  /** The header loop's `$languages[$v] = []` for every non-empty cell. */
  function HeaderLanguages(languages: Languages, cells: seq<string>): Languages
    decreases |cells|
  {
    if cells == [] then languages
    else
      var n := |cells| - 1;
      var l := HeaderLanguages(languages, cells[..n]);
      if IsEmpty(cells[n]) then l else Put(l, cells[n], [])
  }

  /** `$languages[$language]`, an empty array where it is not set. */
  function Translations(languages: Languages, language: string): OrderedMap<string>
  {
    match Get(languages, language)
    case Some(m) => m
    case None => []
  }

  /** `$languages[$language][$key]`. */
  function Lookup(languages: Languages, language: string, key: string): Option<string>
  {
    Get(Translations(languages, language), key)
  }

  /** A data row's loop: `$languages[$language][$translationKey] = $v` for non-empty cells of mapped columns. */
  function RecordCells(languages: Languages, columns: map<nat, string>, key: string, cells: seq<string>): Languages
    decreases |cells|
  {
    if cells == [] then languages
    else
      var n := |cells| - 1;
      var l := RecordCells(languages, columns, key, cells[..n]);
      if !IsEmpty(cells[n]) && n in columns
      then Put(l, columns[n], Put(Translations(l, columns[n]), key, cells[n]))
      else l
  }

  /** The variables of `readCsv`: `$firstRow`, `$columnToLanguageMap`, `$languages`. */
  datatype CsvState = CsvState(firstRow: bool, columns: map<nat, string>, languages: Languages)

  const Start := CsvState(true, map[], [])

  /** One turn of the `fgetcsv` loop. */
  function ReadRow(st: CsvState, row: seq<string>): CsvState
  {
    var cells := Cells(row);
    if st.firstRow then CsvState(false, HeaderColumns(st.columns, cells), HeaderLanguages(st.languages, cells))
    else CsvState(false, st.columns, RecordCells(st.languages, st.columns, TranslationKey(row), cells))
  }

  function ReadRows(rows: seq<seq<string>>): CsvState
    decreases |rows|
  {
    if rows == [] then Start else ReadRow(ReadRows(rows[..|rows| - 1]), rows[|rows| - 1])
  }

  /** `readCsv`, on rows already decoded from the CSV file. */
  method ReadCsv(rows: seq<seq<string>>) returns (languages: Languages)
    ensures languages == ReadRows(rows).languages
  {
    languages := [];
    var firstRow := true;
    var columnToLanguageMap: map<nat, string> := map[];
    for i := 0 to |rows|
      invariant CsvState(firstRow, columnToLanguageMap, languages) == ReadRows(rows[..i])
    {
      assert rows[..i + 1][..i] == rows[..i];
      var data := rows[i];
      var translationKey := if data == [] then "" else data[0];
      data := if data == [] then [] else data[1..];
      if firstRow {
        firstRow := false;
        ghost var columns0, languages0 := columnToLanguageMap, languages;
        for k := 0 to |data|
          invariant columnToLanguageMap == HeaderColumns(columns0, data[..k])
          invariant languages == HeaderLanguages(languages0, data[..k])
        {
          assert data[..k + 1][..k] == data[..k];
          if !IsEmpty(data[k]) {
            columnToLanguageMap := columnToLanguageMap[k := data[k]];
            languages := Put(languages, data[k], []);
          }
        }
        assert data[..|data|] == data;
      } else {
        ghost var languages0 := languages;
        for k := 0 to |data|
          invariant languages == RecordCells(languages0, columnToLanguageMap, translationKey, data[..k])
        {
          assert data[..k + 1][..k] == data[..k];
          if !IsEmpty(data[k]) && k in columnToLanguageMap {
            var language := columnToLanguageMap[k];
            var translations := match Get(languages, language) case Some(m) => m case None => [];
            languages := Put(languages, language, Put(translations, translationKey, data[k]));
          }
        }
        assert data[..|data|] == data;
      }
    }
    assert rows[..|rows|] == rows;
  }

  // ---- Planned writes (ImportLanguages.php:121-217) ----

  /** One `writeLanguageFile` call: the target file, the array it is given and the buffer its `FileWriter` saves. */
  datatype Write = Write(path: string, translations: OrderedMap<Node>, content: string)

  function FileWrite(path: string, translations: OrderedMap<Node>): Write
  {
    Write(path, translations, FileContent(translations))
  }

  /** The files written, in order, and whether a `TypeError` ended the command. */
  datatype Plan = Plan(writes: seq<Write>, aborted: bool)

  /** Run `first`, then `next` unless `first` was aborted. */
  function Then(first: Plan, next: Plan): Plan
  {
    if first.aborted then first else Plan(first.writes + next.writes, next.aborted)
  }

  const Separator := "/"
  const VendorFolderName := "vendor"
  const Extension := ".php"

  /** The position of the first string among the top-level values, or the length if there is none. */
  function FirstScalar(data: OrderedMap<Node>): (n: nat)
    ensures n <= |data|
    ensures forall i :: 0 <= i < n ==> data[i].value.Container?
    ensures n < |data| ==> data[n].value.Scalar?
  {
    if data == [] then 0 else if data[0].value.Scalar? then 0 else 1 + FirstScalar(data[1..])
  }

  /**
   * The loop of `writeLanguageFolderToDirectory`: one file `folder . $file . ".php"`
   * per top-level key, until a value that is not an array reaches
   * `writeLanguageFile(array $translations)` and the `TypeError` ends the command.
   */
  function FolderFiles(data: OrderedMap<Node>, folder: string): (p: Plan)
    ensures p.aborted == (FirstScalar(data) < |data|)
    ensures |p.writes| == FirstScalar(data)
    decreases |data|
  {
    if data == [] then Plan([], false)
    else if data[0].value.Scalar? then Plan([], true)
    else
      var rest := FolderFiles(data[1..], folder);
      Plan([FileWrite(folder + data[0].key + Extension, data[0].value.entries)] + rest.writes, rest.aborted)
  }

  /** The `i`-th file of a folder is the `i`-th array of `data`, saved under its key. */
  lemma {:induction false} FolderFilesWrites(data: OrderedMap<Node>, folder: string)
    ensures forall i :: 0 <= i < |FolderFiles(data, folder).writes| ==>
      FolderFiles(data, folder).writes[i] == FileWrite(folder + data[i].key + Extension, data[i].value.entries)
    decreases |data|
  {
    if data != [] && data[0].value.Container? {
      FolderFilesWrites(data[1..], folder);
    }
  }

  /** `writeLanguageFolderToDirectory`: nothing is written when the folder neither exists nor can be made. */
  function FolderPlan(data: OrderedMap<Node>, folder: string, ready: string -> bool): Plan
  {
    if !ready(folder) then Plan([], false) else FolderFiles(data, folder)
  }

  /** The folder `processVendorFolder` computes from the previous value of `$targetFolder`. */
  function VendorPackageFolder(folder: string, package: string, language: string): string
  {
    folder + Separator + VendorFolderName + Separator + package + Separator + language + Separator
  }

  /**
   * `processVendorFolder` as written: the entries of the vendor array are
   * taken as packages, and `$targetFolder` is reassigned in the loop, so each
   * folder extends the previous one.
   */
  function VendorPlanAsWritten(language: string, data: OrderedMap<Node>, folder: string, ready: string -> bool): Plan
    decreases |data|
  {
    if data == [] then Plan([], false)
    else if data[0].value.Scalar? then VendorPlanAsWritten(language, data[1..], folder, ready)
    else
      var f := VendorPackageFolder(folder, data[0].key, language);
      Then(FolderPlan(data[0].value.entries, f, ready), VendorPlanAsWritten(language, data[1..], f, ready))
  }

  /** The loop of `writeLanguage`: `array_set` of every key, in order. */
  function Expand(data: OrderedMap<string>): OrderedMap<Node>
    decreases |data|
  {
    if data == [] then []
    else
      var b := data[|data| - 1];
      ArraySet(Expand(data[..|data| - 1]), Explode('.', b.key), b.value)
  }

  function LanguageFolder(target: string, language: string): string
  {
    target + Separator + language + Separator
  }

  /**
   * `writeLanguage`: a `vendor` array goes to `processVendorFolder` and is
   * unset, a `vendor` string fails its `array $data` parameter, and the rest
   * is written to the language folder.
   */
  function LanguagePlan(language: string, data: OrderedMap<string>, target: string, ready: string -> bool): Plan
  {
    var expanded := Expand(data);
    match Get(expanded, VendorFolderName)
    case None => FolderPlan(expanded, LanguageFolder(target, language), ready)
    case Some(v) =>
      if v.Scalar? then Plan([], true)
      else Then(VendorPlanAsWritten(language, v.entries, target, ready),
                FolderPlan(Remove(expanded, VendorFolderName), LanguageFolder(target, language), ready))
  }

  /** `handle`, after the argument checks: every language in `readCsv` order, until a `TypeError`. */
  function LanguagesPlan(languages: Languages, target: string, ready: string -> bool): Plan
    decreases |languages|
  {
    if languages == [] then Plan([], false)
    else Then(LanguagePlan(languages[0].key, languages[0].value, target, ready),
              LanguagesPlan(languages[1..], target, ready))
  }

  function ImportPlan(rows: seq<seq<string>>, target: string, ready: string -> bool): Plan
  {
    LanguagesPlan(ReadRows(rows).languages, target, ready)
  }

  lemma ThenAssoc(a: Plan, b: Plan, c: Plan)
    ensures Then(Then(a, b), c) == Then(a, Then(b, c))
  {
  }

  /** `writeLanguageFile`: a fresh `FileWriter` for the target file, the array written at depth 1, then saved. */
  method WriteLanguageFile(translations: OrderedMap<Node>, targetFile: string) returns (w: Write)
    ensures w == FileWrite(targetFile, translations)
  {
    var writer := new FileWriter(targetFile);
    writer.Write(translations);
    writer.Save();
    w := Write(writer.filename, translations, writer.content);
  }

  /** `writeLanguageFolderToDirectory`; `ready` says whether the folder exists or `makeDirectory` succeeds. */
  method WriteLanguageFolderToDirectory(languageData: OrderedMap<Node>, targetFolder: string, ready: string -> bool)
    returns (p: Plan)
    ensures p == FolderPlan(languageData, targetFolder, ready)
  {
    p := Plan([], false);
    if !ready(targetFolder) {
      return;
    }
    var i := 0;
    while i < |languageData|
      invariant 0 <= i <= |languageData|
      invariant !p.aborted
      invariant Then(p, FolderFiles(languageData[i..], targetFolder)) == FolderFiles(languageData, targetFolder)
    {
      var content := languageData[i].value;
      if content.Scalar? {
        p := Plan(p.writes, true);
        return;
      }
      assert languageData[i..][1..] == languageData[i + 1..];
      var w := WriteLanguageFile(content.entries, targetFolder + languageData[i].key + Extension);
      ghost var rest := FolderFiles(languageData[i + 1..], targetFolder);
      assert FolderFiles(languageData[i..], targetFolder) == Plan([w] + rest.writes, rest.aborted);
      assert (p.writes + [w]) + rest.writes == p.writes + ([w] + rest.writes);
      p := Plan(p.writes + [w], false);
      i := i + 1;
    }
  }

  /** `processVendorFolder`, as written. */
  method ProcessVendorFolder(language: string, data: OrderedMap<Node>, targetFolder: string, ready: string -> bool)
    returns (p: Plan)
    ensures p == VendorPlanAsWritten(language, data, targetFolder, ready)
  {
    p := Plan([], false);
    var folder := targetFolder;
    var i := 0;
    while i < |data|
      invariant 0 <= i <= |data|
      invariant !p.aborted
      invariant Then(p, VendorPlanAsWritten(language, data[i..], folder, ready))
             == VendorPlanAsWritten(language, data, targetFolder, ready)
    {
      assert data[i..][1..] == data[i + 1..];
      if data[i].value.Container? {
        folder := folder + Separator + VendorFolderName + Separator + data[i].key + Separator + language + Separator;
        var w := WriteLanguageFolderToDirectory(data[i].value.entries, folder, ready);
        ThenAssoc(p, w, VendorPlanAsWritten(language, data[i + 1..], folder, ready));
        p := Then(p, w);
        if w.aborted {
          return;
        }
      }
      i := i + 1;
    }
  }

  /** `writeLanguage`. */
  method WriteLanguage(language: string, languageData: OrderedMap<string>, targetFolder: string, ready: string -> bool)
    returns (p: Plan)
    ensures p == LanguagePlan(language, languageData, targetFolder, ready)
  {
    var expandedTranslations := [];
    for i := 0 to |languageData|
      invariant expandedTranslations == Expand(languageData[..i])
    {
      assert languageData[..i + 1][..i] == languageData[..i];
      expandedTranslations := ArraySet(expandedTranslations, Explode('.', languageData[i].key), languageData[i].value);
    }
    assert languageData[..|languageData|] == languageData;
    p := Plan([], false);
    var vendor := Get(expandedTranslations, VendorFolderName);
    if vendor.Some? {
      if vendor.value.Scalar? {
        p := Plan([], true);
        return;
      }
      p := ProcessVendorFolder(language, vendor.value.entries, targetFolder, ready);
      if p.aborted {
        return;
      }
      expandedTranslations := Remove(expandedTranslations, VendorFolderName);
    }
    var rest := WriteLanguageFolderToDirectory(expandedTranslations, targetFolder + Separator + language + Separator, ready);
    p := Then(p, rest);
  }

  /** `handle` after its argument checks: read the rows, then write every language. */
  method Handle(rows: seq<seq<string>>, targetFolder: string, ready: string -> bool) returns (p: Plan)
    ensures p == ImportPlan(rows, targetFolder, ready)
  {
    var languages := ReadCsv(rows);
    p := Plan([], false);
    var i := 0;
    while i < |languages|
      invariant 0 <= i <= |languages|
      invariant !p.aborted
      invariant Then(p, LanguagesPlan(languages[i..], targetFolder, ready)) == LanguagesPlan(languages, targetFolder, ready)
    {
      assert languages[i..][1..] == languages[i + 1..];
      var w := WriteLanguage(languages[i].key, languages[i].value, targetFolder, ready);
      ThenAssoc(p, w, LanguagesPlan(languages[i + 1..], targetFolder, ready));
      p := Then(p, w);
      if w.aborted {
        return;
      }
      i := i + 1;
    }
  }

  // ---- What readCsv computes ----

  /** The non-empty cells, in order: the languages the header names. */
  function NonEmptyCells(cells: seq<string>): seq<string>
    decreases |cells|
  {
    if cells == [] then []
    else
      var n := |cells| - 1;
      NonEmptyCells(cells[..n]) + (if IsEmpty(cells[n]) then [] else [cells[n]])
  }

  /** The languages are exactly the cells that are neither "" nor "0". */
  lemma {:induction false} NonEmptyCellsMembers(cells: seq<string>)
    ensures forall x :: x in NonEmptyCells(cells) <==> x in cells && !IsEmpty(x)
    decreases |cells|
  {
    if cells != [] {
      var n := |cells| - 1;
      NonEmptyCellsMembers(cells[..n]);
      assert cells == cells[..n] + [cells[n]];
    }
  }

  /** Column `k` of the header maps to a language exactly when its cell is neither "" nor "0". */
  lemma {:induction false} HeaderColumnsMap(cells: seq<string>)
    ensures forall k: nat :: k in HeaderColumns(map[], cells) <==> k < |cells| && !IsEmpty(cells[k])
    ensures forall k: nat :: k in HeaderColumns(map[], cells) ==> HeaderColumns(map[], cells)[k] == cells[k]
    decreases |cells|
  {
    if cells != [] {
      HeaderColumnsMap(cells[..|cells| - 1]);
    }
  }

  /**
   * The header creates one empty translation array per distinct language,
   * in the order of their first column.
   */
  lemma {:induction false} HeaderLanguagesKeys(cells: seq<string>)
    ensures Keys(HeaderLanguages([], cells)) == AddAllNew([], NonEmptyCells(cells))
    decreases |cells|
  {
    if cells != [] {
      var n := |cells| - 1;
      var prev := HeaderLanguages([], cells[..n]);
      var ne := NonEmptyCells(cells[..n]);
      HeaderLanguagesKeys(cells[..n]);
      if !IsEmpty(cells[n]) {
        calc {
          Keys(HeaderLanguages([], cells));
          Keys(Put(prev, cells[n], []));
          { PutKeys(prev, cells[n], []); }
          AddNew(AddAllNew([], ne), cells[n]);
          { assert (ne + [cells[n]])[..|ne|] == ne; }
          AddAllNew([], ne + [cells[n]]);
        }
      } else {
        assert NonEmptyCells(cells) == ne + [];
        assert ne + [] == ne;
      }
    }
  }

  /** Every language the header names starts with an empty translation array. */
  lemma {:induction false} HeaderLanguagesEmpty(cells: seq<string>, l: string)
    ensures Get(HeaderLanguages([], cells), l) == if l in NonEmptyCells(cells) then Some([]) else None
    decreases |cells|
  {
    if cells != [] {
      var n := |cells| - 1;
      HeaderLanguagesEmpty(cells[..n], l);
      if !IsEmpty(cells[n]) {
        PutGet(HeaderLanguages([], cells[..n]), cells[n], []);
      }
    }
  }

  lemma HeaderLanguageOrder(cells: seq<string>)
    ensures Keys(HeaderLanguages([], cells)) == FirstOccurrences(NonEmptyCells(cells))
  {
    HeaderLanguagesKeys(cells);
    AddAllNewFirstOccurrences([], NonEmptyCells(cells));
    assert [] + NonEmptyCells(cells) == NonEmptyCells(cells);
  }

  /** The last non-empty cell of `cells` in a column mapped to `language`. */
  function LastCell(columns: map<nat, string>, language: string, cells: seq<string>): (r: Option<string>)
    ensures r.Some? ==> !IsEmpty(r.value) && r.value in cells
    decreases |cells|
  {
    if cells == [] then None
    else
      var n := |cells| - 1;
      if !IsEmpty(cells[n]) && n in columns && columns[n] == language then Some(cells[n])
      else LastCell(columns, language, cells[..n])
  }

  /**
   * A data row sets its key, for each language, to the last non-empty cell in
   * one of that language's columns; every other translation is left alone.
   */
  lemma {:induction false} RecordCellsLookup(languages: Languages, columns: map<nat, string>, key: string, cells: seq<string>)
    ensures forall l, k :: Lookup(RecordCells(languages, columns, key, cells), l, k) ==
                          (if k == key && LastCell(columns, l, cells).Some? then LastCell(columns, l, cells) else Lookup(languages, l, k))
    decreases |cells|
  {
    if cells != [] {
      var n := |cells| - 1;
      var prev := RecordCells(languages, columns, key, cells[..n]);
      RecordCellsLookup(languages, columns, key, cells[..n]);
      if !IsEmpty(cells[n]) && n in columns {
        var language := columns[n];
        var t := Put(Translations(prev, language), key, cells[n]);
        PutGet(prev, language, t);
        PutGet(Translations(prev, language), key, cells[n]);
        assert RecordCells(languages, columns, key, cells) == Put(prev, language, t);
        forall l, k
          ensures Lookup(RecordCells(languages, columns, key, cells), l, k) ==
                  (if k == key && LastCell(columns, l, cells).Some? then LastCell(columns, l, cells) else Lookup(languages, l, k))
        {
          if l != language {
            assert Translations(Put(prev, language, t), l) == Translations(prev, l);
            assert LastCell(columns, l, cells) == LastCell(columns, l, cells[..n]);
            assert Lookup(Put(prev, language, t), l, k) == Lookup(prev, l, k);
          } else {
            assert Translations(Put(prev, language, t), l) == t;
            assert LastCell(columns, l, cells) == Some(cells[n]);
            assert Lookup(Put(prev, language, t), l, k) == Get(t, k);
            if k != key {
              assert Get(t, k) == Lookup(prev, l, k);
              assert Lookup(prev, l, k) == Lookup(languages, l, k);
            }
          }
        }
      }
    }
  }

  /** A data row adds no language: every mapped column's language is already there. */
  lemma {:induction false} RecordCellsKeys(languages: Languages, columns: map<nat, string>, key: string, cells: seq<string>)
    requires forall k :: k in columns ==> columns[k] in Keys(languages)
    ensures Keys(RecordCells(languages, columns, key, cells)) == Keys(languages)
    decreases |cells|
  {
    if cells != [] {
      var n := |cells| - 1;
      var prev := RecordCells(languages, columns, key, cells[..n]);
      RecordCellsKeys(languages, columns, key, cells[..n]);
      if !IsEmpty(cells[n]) && n in columns {
        PutKeys(prev, columns[n], Put(Translations(prev, columns[n]), key, cells[n]));
      }
    }
  }

  /**
   * After the header, the column map is the header's, and the languages are
   * the header's distinct non-empty cells in order, whatever the data rows hold.
   */
  lemma {:induction false} ReadRowsShape(rows: seq<seq<string>>)
    requires |rows| >= 1
    ensures !ReadRows(rows).firstRow
    ensures ReadRows(rows).columns == HeaderColumns(map[], Cells(rows[0]))
    ensures Keys(ReadRows(rows).languages) == FirstOccurrences(NonEmptyCells(Cells(rows[0])))
    decreases |rows|
  {
    var n := |rows| - 1;
    var header := Cells(rows[0]);
    if n == 0 {
      HeaderLanguageOrder(header);
    } else {
      var st := ReadRows(rows[..n]);
      assert rows[..n][0] == rows[0];
      ReadRowsShape(rows[..n]);
      HeaderColumnsMap(header);
      FirstOccurrencesMembers(NonEmptyCells(header));
      NonEmptyCellsMembers(header);
      forall k | k in st.columns
        ensures st.columns[k] in Keys(st.languages)
      {
        assert header[k] in header;
      }
      RecordCellsKeys(st.languages, st.columns, TranslationKey(rows[n]), Cells(rows[n]));
    }
  }

  /** The header row holds no translation. */
  lemma HeaderHasNoTranslations(header: seq<string>, l: string, k: string)
    ensures Lookup(ReadRows([header]).languages, l, k) == None
  {
    assert [header][..0] == [];
    HeaderLanguagesEmpty(Cells(header), l);
  }

  /**
   * Each data row overwrites, per language, the value of its key with its last
   * non-empty cell in that language's columns; a later row wins over an earlier
   * one, and a short row leaves the languages of its missing columns alone.
   */
  lemma ReadRowsLookup(rows: seq<seq<string>>, l: string, k: string)
    requires |rows| >= 2
    ensures var last := rows[|rows| - 1];
            var cell := LastCell(HeaderColumns(map[], Cells(rows[0])), l, Cells(last));
            Lookup(ReadRows(rows).languages, l, k)
              == if k == TranslationKey(last) && cell.Some? then cell
                 else Lookup(ReadRows(rows[..|rows| - 1]).languages, l, k)
  {
    var n := |rows| - 1;
    assert rows[..n][0] == rows[0];
    ReadRowsShape(rows[..n]);
    var st := ReadRows(rows[..n]);
    RecordCellsLookup(st.languages, st.columns, TranslationKey(rows[n]), Cells(rows[n]));
  }

  // ---- What writeLanguage's expansion computes ----

  /** The first segment of each key: the top-level key `array_set` files its value under. */
  function Heads(data: OrderedMap<string>): (r: seq<string>)
    ensures |r| == |data|
    ensures forall i :: 0 <= i < |data| ==> r[i] == Explode('.', data[i].key)[0]
    decreases |data|
  {
    if data == [] then [] else Heads(data[..|data| - 1]) + [Explode('.', data[|data| - 1].key)[0]]
  }

  lemma {:induction false} ExpandKeys(data: OrderedMap<string>)
    ensures Keys(Expand(data)) == AddAllNew([], Heads(data))
    decreases |data|
  {
    if data != [] {
      var n := |data| - 1;
      var path := Explode('.', data[n].key);
      ExpandKeys(data[..n]);
      ArraySetKeys(Expand(data[..n]), path, data[n].value);
      assert Heads(data)[..n] == Heads(data[..n]);
    }
  }

  /**
   * The top-level keys of the expanded array are the distinct first segments
   * of the keys, in the order they first occur.
   */
  lemma ExpandTopKeys(data: OrderedMap<string>)
    ensures Keys(Expand(data)) == FirstOccurrences(Heads(data))
    ensures DistinctKeys(Expand(data))
  {
    ExpandKeys(data);
    AddAllNewFirstOccurrences([], Heads(data));
    AddAllNewGrows([], Heads(data));
    assert [] + Heads(data) == Heads(data);
  }

  /** The expansion is a PHP array at every depth. */
  lemma {:induction false} ExpandWellFormed(data: OrderedMap<string>)
    ensures WellFormed(Expand(data))
    decreases |data|
  {
    if data != [] {
      var n := |data| - 1;
      ExpandWellFormed(data[..n]);
      ArraySetWellFormed(Expand(data[..n]), Explode('.', data[n].key), data[n].value);
    }
  }

  /**
   * A translation is found at the path of its dotted key, unless a later key
   * lies on that path (is a prefix of it or extends it) and overwrote it.
   */
  lemma {:induction false} ExpandFound(data: OrderedMap<string>, i: nat)
    requires i < |data|
    requires forall j :: i < j < |data| ==> Diverge(Explode('.', data[j].key), Explode('.', data[i].key))
    ensures GetPath(Expand(data), Explode('.', data[i].key)) == Some(Scalar(data[i].value))
    decreases |data|
  {
    var n := |data| - 1;
    var init := data[..n];
    if i == n {
      ArraySetFound(Expand(init), Explode('.', data[n].key), data[n].value);
    } else {
      assert init[i] == data[i];
      forall j | i < j < |init|
        ensures Diverge(Explode('.', init[j].key), Explode('.', init[i].key))
      {
        assert init[j] == data[j];
      }
      ExpandFound(init, i);
      ArraySetKeepsOthers(Expand(init), Explode('.', data[n].key), data[n].value, Explode('.', data[i].key));
    }
  }

  // ---- Where the files go ----

  /** Every file of a folder is one array of `data`, named after its key. */
  lemma FolderPlanWrites(data: OrderedMap<Node>, folder: string, ready: string -> bool)
    ensures forall w :: w in FolderPlan(data, folder, ready).writes ==>
      exists i :: 0 <= i < |data| && w.path == folder + data[i].key + Extension && data[i].value == Container(w.translations)
  {
    var p := FolderPlan(data, folder, ready);
    FolderFilesWrites(data, folder);
    forall w | w in p.writes
      ensures exists i :: 0 <= i < |data| && w.path == folder + data[i].key + Extension && data[i].value == Container(w.translations)
    {
      var i :| 0 <= i < |p.writes| && p.writes[i] == w;
    }
  }

  lemma ThenWrites(a: Plan, b: Plan)
    ensures forall w :: w in Then(a, b).writes ==> w in a.writes || w in b.writes
  {
  }

  /** As written, every vendor file lands somewhere under `folder/vendor/`. */
  lemma {:induction false} VendorPlanAsWrittenUnder(language: string, data: OrderedMap<Node>, folder: string, ready: string -> bool)
    ensures forall w :: w in VendorPlanAsWritten(language, data, folder, ready).writes ==>
      folder + Separator + VendorFolderName + Separator <= w.path
    decreases |data|
  {
    if data != [] {
      var under := folder + Separator + VendorFolderName + Separator;
      if data[0].value.Scalar? {
        VendorPlanAsWrittenUnder(language, data[1..], folder, ready);
      } else {
        var f := VendorPackageFolder(folder, data[0].key, language);
        assert under <= f by {
          assert f == under + (data[0].key + Separator + language + Separator);
        }
        var first := FolderPlan(data[0].value.entries, f, ready);
        var rest := VendorPlanAsWritten(language, data[1..], f, ready);
        VendorPlanAsWrittenUnder(language, data[1..], f, ready);
        FolderPlanUnder(data[0].value.entries, f, ready);
        ThenWrites(first, rest);
        PrefixTrans(under, f, f + Separator + VendorFolderName + Separator);
        forall w | w in Then(first, rest).writes
          ensures under <= w.path
        {
          if w in first.writes {
            PrefixTrans(under, f, w.path);
          } else {
            PrefixTrans(under, f + Separator + VendorFolderName + Separator, w.path);
          }
        }
      }
    }
  }

  // ---- The vendor loop as written, in closed form ----

  /** The entries of `data` whose value is an array, in order. */
  function ArraysOnly(data: OrderedMap<Node>): (r: OrderedMap<Node>)
    ensures forall i :: 0 <= i < |r| ==> r[i].value.Container?
    ensures forall b :: b in r <==> b in data && b.value.Container?
    decreases |data|
  {
    if data == [] then []
    else (if data[0].value.Container? then [data[0]] else []) + ArraysOnly(data[1..])
  }

  /** What one package adds to the folder: `/vendor/<package>/<language>/`. */
  function PackageSegment(package: string, language: string): string
  {
    Separator + VendorFolderName + Separator + package + Separator + language + Separator
  }

  /** The segments of `packages`, one after the other, in order. */
  function AccumulatedSegments(language: string, packages: OrderedMap<Node>): string
    decreases |packages|
  {
    if packages == [] then ""
    else PackageSegment(packages[0].key, language) + AccumulatedSegments(language, packages[1..])
  }

  /** The plans carried out one after the other, stopping at the first that aborts. */
  function InTurn(plans: seq<Plan>): Plan
    decreases |plans|
  {
    if plans == [] then Plan([], false) else Then(plans[0], InTurn(plans[1..]))
  }

  /**
   * The folder plan of each array entry `j`, written to `folder` followed by
   * the segments of array entries `0..j`: each folder is built on the one
   * before it.
   */
  function AccumulatedPlans(language: string, arrays: OrderedMap<Node>, folder: string, ready: string -> bool): seq<Plan>
    requires forall i :: 0 <= i < |arrays| ==> arrays[i].value.Container?
  {
    seq(|arrays|, j requires 0 <= j < |arrays| =>
      FolderPlan(arrays[j].value.entries, folder + AccumulatedSegments(language, arrays[..j + 1]), ready))
  }

  /** As written, an entry of the vendor array that is not an array is skipped and changes nothing. */
  lemma {:induction false} VendorPlanSkipsStrings(language: string, data: OrderedMap<Node>, folder: string, ready: string -> bool)
    ensures VendorPlanAsWritten(language, data, folder, ready) == VendorPlanAsWritten(language, ArraysOnly(data), folder, ready)
    decreases |data|
  {
    if data != [] {
      var rest := ArraysOnly(data[1..]);
      if data[0].value.Scalar? {
        assert ArraysOnly(data) == [] + rest;
        assert [] + rest == rest;
        VendorPlanSkipsStrings(language, data[1..], folder, ready);
      } else {
        var arrays := [data[0]] + rest;
        assert ArraysOnly(data) == arrays;
        assert arrays[0] == data[0] && arrays[1..] == rest;
        VendorPlanSkipsStrings(language, data[1..], VendorPackageFolder(folder, data[0].key, language), ready);
      }
    }
  }

  /**
   * As written, the vendor loop is the folder plans of the array entries in
   * turn, the `j`-th written to `folder` followed by the segments
   * `/vendor/<key>/<language>/` of array entries `0..j`.
   */
  lemma {:induction false} VendorPlanAsWrittenInTurn(language: string, data: OrderedMap<Node>, folder: string, ready: string -> bool)
    ensures VendorPlanAsWritten(language, data, folder, ready) == InTurn(AccumulatedPlans(language, ArraysOnly(data), folder, ready))
    decreases |data|
  {
    if data != [] {
      var rest := ArraysOnly(data[1..]);
      if data[0].value.Scalar? {
        assert ArraysOnly(data) == [] + rest;
        assert [] + rest == rest;
        VendorPlanAsWrittenInTurn(language, data[1..], folder, ready);
      } else {
        var k := data[0].key;
        var f := VendorPackageFolder(folder, k, language);
        var arrays := [data[0]] + rest;
        assert ArraysOnly(data) == arrays;
        VendorPlanAsWrittenInTurn(language, data[1..], f, ready);
        AccumulatedPlansCons(language, data[0], rest, folder, ready);
      }
    }
  }

  /** The plans of `[b] + rest` are the plan of `b`, then those of `rest` built on `b`'s folder. */
  lemma AccumulatedPlansCons(language: string, b: Binding<Node>, rest: OrderedMap<Node>, folder: string, ready: string -> bool)
    requires b.value.Container? && forall i :: 0 <= i < |rest| ==> rest[i].value.Container?
    ensures var arrays := [b] + rest;
      var f := VendorPackageFolder(folder, b.key, language);
      InTurn(AccumulatedPlans(language, arrays, folder, ready)) ==
        Then(FolderPlan(b.value.entries, f, ready), InTurn(AccumulatedPlans(language, rest, f, ready)))
  {
    var arrays := [b] + rest;
    var seg := PackageSegment(b.key, language);
    var f := VendorPackageFolder(folder, b.key, language);
    assert f == folder + seg;
    var ps := AccumulatedPlans(language, arrays, folder, ready);
    var qs := AccumulatedPlans(language, rest, f, ready);
    assert arrays[..1] == [b] && [b][1..] == [];
    assert AccumulatedSegments(language, [b]) == seg + AccumulatedSegments(language, []);
    assert seg + "" == seg;
    assert arrays[0] == b;
    assert folder + AccumulatedSegments(language, arrays[..1]) == f;
    assert ps[0] == FolderPlan(b.value.entries, f, ready);
    forall j | 0 <= j < |qs| ensures ps[1..][j] == qs[j] {
      assert arrays[..j + 2] == [b] + rest[..j + 1];
      assert ([b] + rest[..j + 1])[1..] == rest[..j + 1];
      assert AccumulatedSegments(language, arrays[..j + 2]) == seg + AccumulatedSegments(language, rest[..j + 1]);
      assert folder + (seg + AccumulatedSegments(language, rest[..j + 1])) == f + AccumulatedSegments(language, rest[..j + 1]);
    }
    assert ps[1..] == qs;
  }

  /** Every file of a folder lies in that folder. */
  lemma FolderPlanUnder(data: OrderedMap<Node>, folder: string, ready: string -> bool)
    ensures forall w :: w in FolderPlan(data, folder, ready).writes ==> folder <= w.path
  {
    FolderPlanWrites(data, folder, ready);
    forall w | w in FolderPlan(data, folder, ready).writes
      ensures folder <= w.path
    {
      var i :| 0 <= i < |data| && w.path == folder + data[i].key + Extension && data[i].value == Container(w.translations);
      assert w.path == folder + (data[i].key + Extension);
    }
  }

  /** The files `writeLanguage` writes to the language folder: the top-level arrays other than `vendor`. */
  lemma LanguageFolderFiles(expanded: OrderedMap<Node>, folder: string, ready: string -> bool)
    requires DistinctKeys(expanded)
    ensures forall w :: w in FolderPlan(Remove(expanded, VendorFolderName), folder, ready).writes ==>
      exists k :: k != VendorFolderName && w.path == folder + k + Extension && Get(expanded, k) == Some(Container(w.translations))
  {
    var rest := Remove(expanded, VendorFolderName);
    FolderPlanWrites(rest, folder, ready);
    forall w | w in FolderPlan(rest, folder, ready).writes
      ensures exists k :: k != VendorFolderName && w.path == folder + k + Extension && Get(expanded, k) == Some(Container(w.translations))
    {
      var i :| 0 <= i < |rest| && w.path == folder + rest[i].key + Extension && rest[i].value == Container(w.translations);
      RemoveMember(expanded, VendorFolderName, rest[i]);
      GetMember(expanded, rest[i]);
    }
  }

  /**
   * As written, each file of a language either lands under `target/vendor/`,
   * or is `target/language/k.php` for a top-level key `k` other than `vendor`,
   * holding that key's array.
   */
  lemma LanguagePlanPaths(language: string, data: OrderedMap<string>, target: string, ready: string -> bool)
    ensures forall w :: w in LanguagePlan(language, data, target, ready).writes ==>
      target + Separator + VendorFolderName + Separator <= w.path ||
      exists k :: k != VendorFolderName && w.path == LanguageFolder(target, language) + k + Extension &&
                  Get(Expand(data), k) == Some(Container(w.translations))
  {
    var expanded := Expand(data);
    var lf := LanguageFolder(target, language);
    ExpandTopKeys(data);
    GetPresent(expanded, VendorFolderName);
    RemoveGet(expanded, VendorFolderName);
    LanguageFolderFiles(expanded, lf, ready);
    match Get(expanded, VendorFolderName)
    case None =>
    case Some(v) =>
      if v.Container? {
        VendorPlanAsWrittenUnder(language, v.entries, target, ready);
        ThenWrites(VendorPlanAsWritten(language, v.entries, target, ready), FolderPlan(Remove(expanded, VendorFolderName), lf, ready));
      }
  }

  /**
   * As written, every file of the whole import lands under `target/vendor/`,
   * or is `target/<l>/<k>.php` for a language `l` of the table and a top-level
   * key `k` other than `vendor`, holding that key's array.
   */
  lemma {:induction false} LanguagesPlanPaths(languages: Languages, target: string, ready: string -> bool)
    ensures forall w :: w in LanguagesPlan(languages, target, ready).writes ==>
      target + Separator + VendorFolderName + Separator <= w.path ||
      exists lb, k :: lb in languages && k != VendorFolderName && w.path == LanguageFolder(target, lb.key) + k + Extension &&
                      Get(Expand(lb.value), k) == Some(Container(w.translations))
    decreases |languages|
  {
    if languages != [] {
      var first := LanguagePlan(languages[0].key, languages[0].value, target, ready);
      var rest := LanguagesPlan(languages[1..], target, ready);
      LanguagePlanPaths(languages[0].key, languages[0].value, target, ready);
      LanguagesPlanPaths(languages[1..], target, ready);
      ThenWrites(first, rest);
      forall w | w in LanguagesPlan(languages, target, ready).writes && !(target + Separator + VendorFolderName + Separator <= w.path)
        ensures exists lb, k :: lb in languages && k != VendorFolderName && w.path == LanguageFolder(target, lb.key) + k + Extension &&
                                Get(Expand(lb.value), k) == Some(Container(w.translations))
      {
        if w in first.writes {
          var k :| k != VendorFolderName && w.path == LanguageFolder(target, languages[0].key) + k + Extension &&
                   Get(Expand(languages[0].value), k) == Some(Container(w.translations));
          assert languages[0] in languages;
        } else {
          var lb, k :| lb in languages[1..] && k != VendorFolderName && w.path == LanguageFolder(target, lb.key) + k + Extension &&
                       Get(Expand(lb.value), k) == Some(Container(w.translations));
          assert lb in languages;
        }
      }
    }
  }

  /** `handle`, as written: the files of an import lie under `target/vendor/` or in a language folder of the table. */
  lemma ImportPlanPaths(rows: seq<seq<string>>, target: string, ready: string -> bool)
    ensures forall w :: w in ImportPlan(rows, target, ready).writes ==>
      target + Separator + VendorFolderName + Separator <= w.path ||
      exists lb, k :: lb in ReadRows(rows).languages && k != VendorFolderName &&
                      w.path == LanguageFolder(target, lb.key) + k + Extension &&
                      Get(Expand(lb.value), k) == Some(Container(w.translations))
  {
    LanguagesPlanPaths(ReadRows(rows).languages, target, ready);
  }

  // ---- The vendor folders: as written and as intended ----

  /** The folder the exporter reads a package's language from: `target/vendor/<vendor>/<package>/<language>/`. */
  function IntendedPackageFolder(target: string, vendor: string, package: string, language: string): string
  {
    target + Separator + VendorFolderName + Separator + vendor + Separator + package + Separator + language + Separator
  }

  /** The packages of one vendor, each written to its own folder; entries that are not arrays are skipped. */
  function IntendedPackagesPlan(language: string, vendor: string, packages: OrderedMap<Node>, target: string, ready: string -> bool): Plan
    decreases |packages|
  {
    if packages == [] then Plan([], false)
    else
      var rest := IntendedPackagesPlan(language, vendor, packages[1..], target, ready);
      if packages[0].value.Scalar? then rest
      else Then(FolderPlan(packages[0].value.entries, IntendedPackageFolder(target, vendor, packages[0].key, language), ready), rest)
  }

  /** The corrected `processVendorFolder`: two levels, vendor then package, from the same target folder. */
  function IntendedVendorPlan(language: string, vendors: OrderedMap<Node>, target: string, ready: string -> bool): Plan
    decreases |vendors|
  {
    if vendors == [] then Plan([], false)
    else
      var rest := IntendedVendorPlan(language, vendors[1..], target, ready);
      if vendors[0].value.Scalar? then rest
      else Then(IntendedPackagesPlan(language, vendors[0].key, vendors[0].value.entries, target, ready), rest)
  }

  /** `writeLanguage` with the corrected vendor processing. */
  function IntendedLanguagePlan(language: string, data: OrderedMap<string>, target: string, ready: string -> bool): Plan
  {
    var expanded := Expand(data);
    match Get(expanded, VendorFolderName)
    case None => FolderPlan(expanded, LanguageFolder(target, language), ready)
    case Some(v) =>
      if v.Scalar? then Plan([], true)
      else Then(IntendedVendorPlan(language, v.entries, target, ready),
                FolderPlan(Remove(expanded, VendorFolderName), LanguageFolder(target, language), ready))
  }

  lemma {:induction false} IntendedPackagesWrites(language: string, vendor: string, packages: OrderedMap<Node>, target: string, ready: string -> bool)
    ensures forall w :: w in IntendedPackagesPlan(language, vendor, packages, target, ready).writes ==>
      exists pb, fb :: pb in packages && pb.value.Container? && fb in pb.value.entries &&
        w.path == IntendedPackageFolder(target, vendor, pb.key, language) + fb.key + Extension && fb.value == Container(w.translations)
    decreases |packages|
  {
    if packages != [] {
      var rest := IntendedPackagesPlan(language, vendor, packages[1..], target, ready);
      IntendedPackagesWrites(language, vendor, packages[1..], target, ready);
      forall pb | pb in packages[1..] ensures pb in packages { }
      if packages[0].value.Container? {
        var pb := packages[0];
        var folder := IntendedPackageFolder(target, vendor, pb.key, language);
        FolderPlanWrites(pb.value.entries, folder, ready);
        ThenWrites(FolderPlan(pb.value.entries, folder, ready), rest);
        forall w | w in FolderPlan(pb.value.entries, folder, ready).writes
          ensures exists pb, fb :: pb in packages && pb.value.Container? && fb in pb.value.entries &&
                                   w.path == IntendedPackageFolder(target, vendor, pb.key, language) + fb.key + Extension && fb.value == Container(w.translations)
        {
          var i :| 0 <= i < |pb.value.entries| && w.path == folder + pb.value.entries[i].key + Extension && pb.value.entries[i].value == Container(w.translations);
          assert pb in packages && pb.value.entries[i] in pb.value.entries;
        }
      }
    }
  }

  lemma {:induction false} IntendedVendorWrites(language: string, vendors: OrderedMap<Node>, target: string, ready: string -> bool)
    ensures forall w :: w in IntendedVendorPlan(language, vendors, target, ready).writes ==>
      exists vb, pb, fb :: vb in vendors && vb.value.Container? && pb in vb.value.entries && pb.value.Container? && fb in pb.value.entries &&
        w.path == IntendedPackageFolder(target, vb.key, pb.key, language) + fb.key + Extension && fb.value == Container(w.translations)
    decreases |vendors|
  {
    if vendors != [] {
      var rest := IntendedVendorPlan(language, vendors[1..], target, ready);
      IntendedVendorWrites(language, vendors[1..], target, ready);
      forall vb | vb in vendors[1..] ensures vb in vendors { }
      if vendors[0].value.Container? {
        var vb := vendors[0];
        var first := IntendedPackagesPlan(language, vb.key, vb.value.entries, target, ready);
        IntendedPackagesWrites(language, vb.key, vb.value.entries, target, ready);
        ThenWrites(first, rest);
        forall w | w in first.writes
          ensures exists vb, pb, fb :: vb in vendors && vb.value.Container? && pb in vb.value.entries && pb.value.Container? && fb in pb.value.entries &&
                                       w.path == IntendedPackageFolder(target, vb.key, pb.key, language) + fb.key + Extension && fb.value == Container(w.translations)
        {
          var pb, fb :| pb in vb.value.entries && pb.value.Container? && fb in pb.value.entries &&
            w.path == IntendedPackageFolder(target, vb.key, pb.key, language) + fb.key + Extension && fb.value == Container(w.translations);
          assert vb in vendors;
        }
      }
    }
  }

  /** Following a key into an array. */
  lemma GetPathStep(m: OrderedMap<Node>, b: Binding<Node>, rest: seq<string>)
    requires WellFormed(m) && b in m && b.value.Container? && |rest| >= 1
    ensures WellFormed(b.value.entries)
    ensures GetPath(m, [b.key] + rest) == GetPath(b.value.entries, rest)
  {
    GetMember(m, b);
    assert ([b.key] + rest)[1..] == rest;
  }

  /** A file three levels below `vendor` is found at its four-segment path. */
  lemma VendorFileFound(expanded: OrderedMap<Node>, vendors: OrderedMap<Node>, vb: Binding<Node>, pb: Binding<Node>, fb: Binding<Node>)
    requires WellFormed(expanded) && Binding(VendorFolderName, Container(vendors)) in expanded
    requires vb in vendors && vb.value.Container? && pb in vb.value.entries && pb.value.Container? && fb in pb.value.entries
    ensures GetPath(expanded, [VendorFolderName, vb.key, pb.key, fb.key]) == Some(fb.value)
  {
    GetPathStep(expanded, Binding(VendorFolderName, Container(vendors)), [vb.key, pb.key, fb.key]);
    GetPathStep(vendors, vb, [pb.key, fb.key]);
    GetPathStep(vb.value.entries, pb, [fb.key]);
    GetMember(pb.value.entries, fb);
    assert [VendorFolderName, vb.key, pb.key, fb.key] == [VendorFolderName] + [vb.key, pb.key, fb.key];
    assert [vb.key, pb.key, fb.key] == [vb.key] + [pb.key, fb.key];
    assert [pb.key, fb.key] == [pb.key] + [fb.key];
  }

  /** As intended, every vendor file holds the array found at `vendor.v.p.f` in the expanded translations. */
  lemma IntendedVendorFiles(language: string, expanded: OrderedMap<Node>, vendors: OrderedMap<Node>, target: string, ready: string -> bool)
    requires WellFormed(expanded) && Binding(VendorFolderName, Container(vendors)) in expanded
    ensures forall w :: w in IntendedVendorPlan(language, vendors, target, ready).writes ==>
      exists v, p, f :: w.path == IntendedPackageFolder(target, v, p, language) + f + Extension &&
                        GetPath(expanded, [VendorFolderName, v, p, f]) == Some(Container(w.translations))
  {
    forall w | w in IntendedVendorPlan(language, vendors, target, ready).writes
      ensures exists v, p, f :: w.path == IntendedPackageFolder(target, v, p, language) + f + Extension &&
                                GetPath(expanded, [VendorFolderName, v, p, f]) == Some(Container(w.translations))
    {
      IntendedVendorFile(language, expanded, vendors, target, ready, w);
    }
  }

  lemma IntendedVendorFile(language: string, expanded: OrderedMap<Node>, vendors: OrderedMap<Node>, target: string, ready: string -> bool, w: Write)
    requires WellFormed(expanded) && Binding(VendorFolderName, Container(vendors)) in expanded
    requires w in IntendedVendorPlan(language, vendors, target, ready).writes
    ensures exists v, p, f :: w.path == IntendedPackageFolder(target, v, p, language) + f + Extension &&
                              GetPath(expanded, [VendorFolderName, v, p, f]) == Some(Container(w.translations))
  {
    IntendedVendorWrites(language, vendors, target, ready);
    var vb, pb, fb :| vb in vendors && vb.value.Container? && pb in vb.value.entries && pb.value.Container? && fb in pb.value.entries &&
      w.path == IntendedPackageFolder(target, vb.key, pb.key, language) + fb.key + Extension && fb.value == Container(w.translations);
    VendorFileFound(expanded, vendors, vb, pb, fb);
    assert GetPath(expanded, [VendorFolderName, vb.key, pb.key, fb.key]) == Some(Container(w.translations));
  }

  /**
   * As intended, every vendor file is `target/vendor/v/p/language/f.php` and
   * holds the array at `vendor.v.p.f` of the expanded translations, which is
   * where the exporter reads it back from; every other file is
   * `target/language/k.php` for a top-level key `k` other than `vendor`.
   */
  lemma IntendedLanguagePaths(language: string, data: OrderedMap<string>, target: string, ready: string -> bool)
    ensures forall w :: w in IntendedLanguagePlan(language, data, target, ready).writes ==>
      (exists v, p, f :: w.path == IntendedPackageFolder(target, v, p, language) + f + Extension &&
                         GetPath(Expand(data), [VendorFolderName, v, p, f]) == Some(Container(w.translations))) ||
      (exists k :: k != VendorFolderName && w.path == LanguageFolder(target, language) + k + Extension &&
                   Get(Expand(data), k) == Some(Container(w.translations)))
  {
    var expanded := Expand(data);
    var lf := LanguageFolder(target, language);
    ExpandTopKeys(data);
    ExpandWellFormed(data);
    GetPresent(expanded, VendorFolderName);
    RemoveGet(expanded, VendorFolderName);
    LanguageFolderFiles(expanded, lf, ready);
    match Get(expanded, VendorFolderName)
    case None =>
    case Some(v) =>
      if v.Container? {
        IntendedVendorFiles(language, expanded, v.entries, target, ready);
        ThenWrites(IntendedVendorPlan(language, v.entries, target, ready), FolderPlan(Remove(expanded, VendorFolderName), lf, ready));
      }
  }

}
