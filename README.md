# laravel-lang2csv, modelled in Dafny

This project models the two console commands of laravel-lang2csv and the
file writer they share:

- **`translations:export`** (`ExportLanguages`) walks the Laravel language
  tree (`lang/<language>/<file>.php` and
  `lang/vendor/<vendor>/<package>/<language>/<file>.php`). It flattens every
  language file with `array_dot` into keys such as `messages.welcome` or
  `vendor.acme.shop.cart.title`. It then builds the translation table: a
  header `Key, en, nl, fr, <other languages>` and one row per key, holding
  `null` where a language has no value.
- **`translations:import`** (`ImportLanguages`) reads that table back into one
  key-to-value array per language. It expands the dotted keys with
  `array_set`, then writes one PHP file per top-level key, with the `vendor`
  subtree sent to the vendor folders.
- **`FileWriter`** renders a nested array as a `<?php return [ ... ];` file,
  line by line, with tabs for indentation and escaped double quotes.

PHP arrays are modelled as ordered association lists (`OrderedMaps`). The
file system enters the model as values:

- the export is given the directory tree, with each language file's array;
- the import is given the decoded CSV rows, plus a predicate saying whether a
  target folder exists or can be created.

The import's output is a `Plan`: the files, in the order they are written,
each with the array it receives and the exact text its `FileWriter` saves. A
`TypeError` that ends the command is an `aborted` flag. The methods follow the
PHP code statement by statement. The export's warnings become a `raised`
flag, because Laravel's error handler turns each PHP warning or notice into
an `ErrorException` that ends the command. The export's scans are methods of the
`ExportLanguages` class over the fields of `$parsedResources`, and the
`FileWriter` class appends to its `content` buffer. Each method is proved
equal to a specification function, and the lemmas state what those functions
promise.

Files:

- `wrappers.dfy`: `Option`.
- `ordered_maps.dfy`: PHP arrays as ordered maps (`$a[$k] = $v`, `unset`,
  first occurrences).
- `php_strings.dfy`: `explode`, `implode`, `dropExtension`, `empty()` and
  `str_repeat`.
- `lang_tree.dfy`: nested translation arrays, `array_dot`, `array_set` and
  `array_get`.
- `export.dfy`: the export command.
- `file_writer.dfy`: `FileWriter`.
- `import.dfy`: the import command, both as written and with the vendor
  handling corrected.
- `vendor_findings.dfy`: the two vendor defects, each shown next to what the
  corrected handling writes.

## Model

| member | source | states |
|---|---|---|
| Export.ExportLanguages.constructor | src/Console/ExportLanguages.php:46 | The resources start empty: no keys, no languages, no translations. |
| Export.ExportLanguages.Handle | src/Console/ExportLanguages.php:37-84 | No table (the `ErrorException`) exactly when the walk raises a warning or records no key, so that `$parsedResources['keys']` is undefined. Otherwise the resources are exactly those of scanning the root with prefix "", and they are valid. The rows returned are their table. The keys, one per data row, are the string keys the walk meets, each once, in first-seen order (`FirstOccurrences(FolderKeys("", root))`). |
| Export.ExportLanguages.ScanFolder | src/Console/ExportLanguages.php:90-110 | It raises exactly when `FolderRaises`: the path is a file (`scandir` warns), or an entry raises. Otherwise the new resources are those of the directory walk: "." and ".." are skipped, `vendor` goes to the vendor scan with prefix `vendor.`, and every other entry is scanned as a language. |
| Export.ExportLanguages.ScanVendorFolder | src/Console/ExportLanguages.php:116-146 | It raises exactly when `VendorRaises`: the folder or a vendor in it is a file, or a package raises. Otherwise the new resources are those of scanning each `vendor/<v>/<p>` as a language root with prefix `<prefix><v>.<p>.`. "." and ".." are skipped at both levels. |
| Export.ExportLanguages.ScanLanguage | src/Console/ExportLanguages.php:153-192 | It raises exactly when `LanguageRaises`: the path is a file (`scandir` warns), or an entry is a directory (`include` warns). Otherwise the language is registered the first time it is seen, and each file is flattened under `prefix + dropExtension(name)`, and every string leaf is recorded (key order, then value), with arrays skipped. |
| Export.ExportLanguages.BuildRow | src/Console/ExportLanguages.php:69-73 | The row is the key, then the value in each column's language, or `null` where `isset` fails. |
| Export.ExportLanguages.BuildRows | src/Console/ExportLanguages.php:52-74 | The rows are the table of the current resources. The header is `Key` then the columns; each data row is the key, then the value per column language, or `null`. |
| Export.ColumnsOrder | src/Console/ExportLanguages.php:40-57 | The columns start with `en, nl, fr`. They have no duplicates, are the first occurrences of the defaults followed by the discovered languages, and contain exactly those languages. |
| Export.ColumnsExample | src/Console/ExportLanguages.php:40-57 | Discovering `fr, de` gives `en, nl, fr, de`; discovering nothing gives `en, nl, fr`. |
| Export.RecordFileValues | src/Console/ExportLanguages.php:179-187 | After a dotted file is recorded, a key has the file's string there when it has one, and its old value otherwise. Arrays are never recorded, and other languages are unchanged. |
| Export.RecordFileKeysExact | src/Console/ExportLanguages.php:179-186 | The new key order is the old one followed by the file's string keys not seen before, in the file's order (`AddAllNew(r.keys, StringKeys(dotted))`). It holds exactly the old keys plus the keys holding strings, and the languages are unchanged. |
| Export.StringKeysMembers | src/Console/ExportLanguages.php:179-185 | `StringKeys` of a dotted file lists exactly the keys that hold a string. |
| Export.RecordFileHasValues | src/Console/ExportLanguages.php:185-186 | After recording, every listed key holds a value in some language. |
| Export.ScanFilesKeys | src/Console/ExportLanguages.php:166-191 | The file loop's key order is the old one followed by the files' string keys not seen before, file after file. |
| Export.ScanLanguageKeys | src/Console/ExportLanguages.php:153-192 | The same, for a language scan. |
| Export.ScanFolderKeys | src/Console/ExportLanguages.php:90-110 | The walk's key order is the old one followed by the string keys it meets and has not seen before, in the order it meets them (`FolderKeys`). |
| Export.ScanRootKeys | src/Console/ExportLanguages.php:93-109 | The same, for the loop of `scanFolder`. |
| Export.ScanVendorKeys | src/Console/ExportLanguages.php:116-146 | The same, for `scanVendorFolder`. |
| Export.ScanVendorsKeys | src/Console/ExportLanguages.php:119-145 | The same, for the loop over vendors. |
| Export.ScanPackagesKeys | src/Console/ExportLanguages.php:127-142 | The same, for the loop over packages. |
| Export.ExportKeyOrder | src/Console/ExportLanguages.php:46-52 | From empty resources, the keys are the first occurrences of `FolderKeys("", root)`. They are exactly its members, they are empty only when it is, and each holds a value in some language. |
| Export.RecordFileValid | src/Console/ExportLanguages.php:175-187 | Recording a file whose keys start with `root` keeps the resources valid, and only adds or changes keys under `root`. |
| Export.FileKeysUnderRoot | src/Console/ExportLanguages.php:175-178 | Every key recorded from file `name` starts with `prefix + dropExtension(name)`. |
| Export.ScanFilesValid | src/Console/ExportLanguages.php:166-191 | The file loop of a language keeps the resources valid and only touches keys under the prefix. |
| Export.ScanLanguageValid | src/Console/ExportLanguages.php:157-191 | A language scan keeps the resources valid, registers the language and only touches keys under the prefix. |
| Export.ScanFolderValid | src/Console/ExportLanguages.php:90-110 | The whole walk keeps both orders duplicate-free, only appends to them, lists every recorded key, and only touches keys under the prefix. What it records is stated by `Export.ScanRootLanguages` and `Export.ScanLanguageLookup`. |
| Export.ScanRootValid | src/Console/ExportLanguages.php:93-109 | The same, for the loop of `scanFolder`. |
| Export.ScanVendorValid | src/Console/ExportLanguages.php:116-146 | The same, for `scanVendorFolder`, whose keys start with `vendor.`. |
| Export.ScanVendorsValid | src/Console/ExportLanguages.php:119-145 | The same, for the loop over vendors: every key it adds or changes starts with the prefix. |
| Export.ScanVendorsUnderPackages | src/Console/ExportLanguages.php:119-145 | Every key the loop over vendors adds or changes starts with `prefix + v + "." + p + "."` for a vendor directory `v` (not `.` or `..`) and a package directory `p` of it; under `vendor` that is `vendor.<v>.<p>.`. |
| Export.ScanPackagesValid | src/Console/ExportLanguages.php:127-142 | The same, for the loop over packages: every key it adds or changes starts with the prefix. |
| Export.ScanPackagesUnderEntries | src/Console/ExportLanguages.php:127-142 | Every key the loop over packages adds or changes starts with `prefix + p + "."` for a package directory `p` (not `.` or `..`). |
| Export.VendorFileExported | src/Console/ExportLanguages.php:90-192 | For a tree `vendor/<v>/<p>/<L>/<f>` (no `.`/`..` names, `L` not `vendor`), the string at path `q` of file `f` is exported for language `L` under `vendor.<v>.<p>.` + dropExtension(f) + "." + implode('.', q), when the file's keys hold no `.`. |
| Export.WithoutDotEntries | src/Console/ExportLanguages.php:96-98 | No entry of the filtered listing is "." or "..". |
| Export.ScanRootSkipsDots | src/Console/ExportLanguages.php:95-98 | Scanning a listing gives the same result as scanning it without "." and "..". |
| Export.ScanVendorsSkipsDots | src/Console/ExportLanguages.php:120-123 | The same, for the vendor listing. |
| Export.ScanPackagesSkipsDots | src/Console/ExportLanguages.php:128-132 | The same, for a vendor's package listing. |
| Export.ScanFilesSkipsDots | src/Console/ExportLanguages.php:168-171 | The same, for a language directory's files. |
| PhpStrings.DropExtension | src/Console/ExportLanguages.php:198-203 | `explode`, `array_pop`, `implode`: the name without its last `.`-separated segment. Stated by `PhpStrings.DropExtensionSplits`. |
| PhpStrings.Explode | src/Console/ExportLanguages.php:200 | `explode('.', $s)` always returns at least one piece. `PhpStrings.ExplodeImplode` and `PhpStrings.ImplodeExplode` state it exactly. |
| PhpStrings.Implode | src/Console/ExportLanguages.php:202 | `implode`: the pieces joined with the delimiter. Its inverse is `Explode`, by `PhpStrings.ImplodeExplode`. |
| PhpStrings.IsEmpty | src/Console/ImportLanguages.php:101 | `empty()` on a string: true for `""` and `"0"`. `Import.NonEmptyCellsMembers` and `Import.HeaderColumnsMap` state what it removes. |
| Export.LoadFileFound | src/Console/ExportLanguages.php:175-178 | A string at path `p` of file `name` is flattened to the key `prefix + dropExtension(name) + "." + implode('.', p)`, when the file's keys hold no `.`. |
| Export.ScanFilesLookup | src/Console/ExportLanguages.php:166-191 | The file loop sets each key of the language to the string of the last file with one there after flattening. A key no file has keeps its old value, and other languages are unchanged. |
| Export.ScanLanguageLookup | src/Console/ExportLanguages.php:153-192 | The same, for the whole scan of a language directory. |
| Export.ScanRootLanguages | src/Console/ExportLanguages.php:93-109 | Every entry of the listing other than `.`, `..` and `vendor` is among the languages after the walk. |
| Export.LanguagesBecomeColumns | src/Console/ExportLanguages.php:47-65 | Each language directory of the language root is a column of the table. |
| PhpStrings.DropExtensionSplits | src/Console/ExportLanguages.php:198-203 | Without a dot the name becomes "". With one, the name is the result, a dot and an extension without dots: only the last segment goes. |
| PhpStrings.DropExtensionOfMessages | src/Console/ExportLanguages.php:198-203 | `messages.php` becomes `messages`. |
| PhpStrings.DropExtensionKeepsInnerDots | src/Console/ExportLanguages.php:198-203 | `a.b.php` becomes `a.b`: only the last extension goes. |
| PhpStrings.DropExtensionWithoutDot | src/Console/ExportLanguages.php:198-203 | `README` becomes "". |
| PhpStrings.ExplodeImplode | src/Console/ExportLanguages.php:200-202 | Joining the pieces of `explode` gives the string back, and no piece holds the delimiter. |
| PhpStrings.ImplodeExplode | src/Console/ImportLanguages.php:127-129 | Splitting a join of delimiter-free pieces gives the pieces back, so a dotted key splits into its segments. |
| LangTree.DotLeaves | src/Console/ExportLanguages.php:178-183 | `array_dot` yields only strings and empty arrays, each under a key that starts with the prefix. |
| LangTree.Dot | src/Console/ExportLanguages.php:178 | `array_dot`: a non-empty array is flattened with its key and a `.` added to the prefix and merged in; a string or an empty array is stored under prefix + key. What it stores where is stated by `LangTree.DotFound` and `LangTree.DotOrigin`. |
| LangTree.Merge | src/Console/ExportLanguages.php:178 | The `array_merge` inside `array_dot`: the second array's bindings are put into the first, in order. `LangTree.MergeGet` states the result. |
| LangTree.MergeGet | src/Console/ExportLanguages.php:178 | After `array_merge($a, $c)`, a key holds `$c`'s value where `$c` has the key, and `$a`'s value otherwise. |
| LangTree.MergeMember | src/Console/ExportLanguages.php:178 | Every binding of a merge comes from one of the two arrays. |
| LangTree.DotFound | src/Console/ExportLanguages.php:176-186 | In an array whose keys hold no `.`, the string at path `p` is stored under the prefix followed by the keys of `p` joined with `.`. |
| LangTree.DotOrigin | src/Console/ExportLanguages.php:176-186 | The other direction, for any array: each flattened binding is the value found at a path `p` whose dot-joined keys, after the prefix, are the binding's key. |
| LangTree.DotSingle | src/Console/ExportLanguages.php:176-178 | Flattening `[root => atts]` yields only keys starting with `root`. |
| LangTree.DotDistinct | src/Console/ExportLanguages.php:178 | The flattened array has no duplicate key. |
| LangTree.ArraySet | src/Console/ImportLanguages.php:128 | `array_set`: every missing key on the path, or one holding a string, becomes an empty array, and the last key gets the string. Stated by `LangTree.ArraySetFound`, `LangTree.ArraySetKeepsOthers`, `LangTree.ArraySetKeys` and `LangTree.ArraySetWellFormed`. |
| LangTree.GetPath | src/Console/ImportLanguages.php:128 | `array_get` on an exploded key: the value reached by following the path, if any. It is the observer that `LangTree.ArraySetFound`, `LangTree.DotFound` and `Import.ExpandFound` state their results with. |
| LangTree.ArraySetFound | src/Console/ImportLanguages.php:127-129 | After `array_set`, the value is found at its path, even when a string was in the way. |
| LangTree.ArraySetKeepsOthers | src/Console/ImportLanguages.php:127-129 | `array_set` leaves every path that diverges from its own unchanged. |
| LangTree.ArraySetKeys | src/Console/ImportLanguages.php:127-129 | `array_set` adds at most the first segment to the top-level keys, at the end. |
| LangTree.ArraySetWellFormed | src/Console/ImportLanguages.php:127-129 | `array_set` keeps every array of the tree free of duplicate keys. |
| Import.ReadCsv | src/Console/ImportLanguages.php:85-119 | The languages returned are those of the row-by-row reading: the header row, then the data rows. |
| Import.NonEmptyCellsMembers | src/Console/ImportLanguages.php:100-104 | The header's languages are exactly its cells that are neither "" nor "0". |
| Import.HeaderColumnsMap | src/Console/ImportLanguages.php:100-104 | Column `k` maps to a language if and only if its cell is non-empty, and it maps to that cell. |
| Import.HeaderLanguagesKeys | src/Console/ImportLanguages.php:100-104 | The language order is the non-empty header cells with repeats dropped. |
| Import.HeaderLanguagesEmpty | src/Console/ImportLanguages.php:103 | Every language named in the header starts with an empty array, and no other language is present. |
| Import.HeaderLanguageOrder | src/Console/ImportLanguages.php:100-104 | The language order is the first occurrences of the non-empty header cells. |
| Import.LastCell | src/Console/ImportLanguages.php:107-111 | A cell that is found is non-empty and belongs to the row. |
| Import.RecordCellsLookup | src/Console/ImportLanguages.php:107-112 | A data row sets its key, per language, to the last non-empty cell in that language's columns. Every other translation is unchanged. |
| Import.RecordCellsKeys | src/Console/ImportLanguages.php:107-112 | A data row adds no language. |
| Import.ReadRowsShape | src/Console/ImportLanguages.php:95-113 | Only the first row is a header. The column map and the language order are fixed by it. |
| Import.HeaderHasNoTranslations | src/Console/ImportLanguages.php:97-105 | The header row records no translation. |
| Import.ReadRowsLookup | src/Console/ImportLanguages.php:106-112 | Each data row overwrites, per language, its key's value with its last non-empty cell. A later row wins, and a row without a cell for a language leaves it alone. |
| Import.Heads | src/Console/ImportLanguages.php:127-129 | One first segment per key, in key order. |
| Import.ExpandKeys | src/Console/ImportLanguages.php:126-129 | The top-level keys after the `array_set` loop are the keys' first segments, in first-seen order. |
| Import.ExpandTopKeys | src/Console/ImportLanguages.php:126-129 | The same as first occurrences, with no duplicate top-level key. |
| Import.ExpandWellFormed | src/Console/ImportLanguages.php:126-129 | The expanded translations have distinct keys at every depth. |
| Import.ExpandFound | src/Console/ImportLanguages.php:126-129 | A key's value is found at its path when no later key conflicts with it. |
| Import.FirstScalar | src/Console/ImportLanguages.php:200-201 | Every top-level value before the result is an array, and the value at the result (if any) is a string. |
| Import.FolderFiles | src/Console/ImportLanguages.php:200-202 | The folder loop aborts if and only if a top-level value is a string, and it writes one file per array before the first string. |
| Import.FolderFilesWrites | src/Console/ImportLanguages.php:200-202 | The i-th file is `folder + key + ".php"` of the i-th top-level entry, holding its array and the text `FileWriter` renders for it. |
| Import.WriteLanguageFile | src/Console/ImportLanguages.php:210-217 | The write goes to the target file, with the array as given and the buffer of a fresh `FileWriter` after `write` and `save`. |
| Import.WriteLanguageFolderToDirectory | src/Console/ImportLanguages.php:187-203 | Nothing is written when the folder can be neither found nor made. Otherwise the folder plan is carried out, ending at a `TypeError`. |
| Import.ProcessVendorFolder | src/Console/ImportLanguages.php:158-181 | As written, it equals `VendorPlanAsWritten`. What that plan is for all inputs is stated by `Import.VendorPlanSkipsStrings` and `Import.VendorPlanAsWrittenInTurn`. |
| Import.VendorPlanSkipsStrings | src/Console/ImportLanguages.php:168-171 | As written, an entry of the vendor array that is not an array is skipped: the plan equals the plan of the array entries alone (`ArraysOnly`). |
| Import.VendorPlanAsWrittenInTurn | src/Console/ImportLanguages.php:166-179 | As written, the plan is the folder plans of the array entries in turn, stopping at a `TypeError`. Entry `j` goes to `folder` followed by the segments `/vendor/<key>/<language>/` of array entries `0..j`, so each folder extends the previous one. |
| Import.AccumulatedPlansCons | src/Console/ImportLanguages.php:173-178 | The plans of `[b] + rest` are `b`'s plan in `folder/vendor/<b>/<language>/`, then those of `rest` built on that folder. |
| Import.WriteLanguage | src/Console/ImportLanguages.php:121-149 | The plan is the language plan. A `vendor` array goes to the vendor processing and is unset, a `vendor` string is a `TypeError`, and the rest goes to `target/<language>/`. |
| Import.Handle | src/Console/ImportLanguages.php:72-77 | The plan writes every language of the read table in its order, stopping at a `TypeError`. |
| Import.FolderPlanWrites | src/Console/ImportLanguages.php:200-202 | Every file of a folder is `folder + key + ".php"` for a top-level entry whose value is the file's array. |
| Import.FolderPlanUnder | src/Console/ImportLanguages.php:200-202 | Every file of a folder lies in that folder. |
| Import.VendorPlanAsWrittenUnder | src/Console/ImportLanguages.php:166-180 | As written, every vendor file lands under `folder/vendor/`. |
| Import.LanguageFolderFiles | src/Console/ImportLanguages.php:144-148 | After `vendor` is unset, every language-folder file is `folder + k + ".php"` for a top-level key `k` other than `vendor`, holding its array. |
| Import.LanguagePlanPaths | src/Console/ImportLanguages.php:121-149 | As written, each file lies under `target/vendor/`, or is `target/<language>/k.php` holding top-level array `k` (not `vendor`). |
| Import.LanguagesPlanPaths | src/Console/ImportLanguages.php:75-77 | As written, every file written for the languages lands under `target/vendor/`, or is `target/<l>/<k>.php` for one of the languages `l` and a top-level key `k` other than `vendor`, holding that key's array. |
| Import.ImportPlanPaths | src/Console/ImportLanguages.php:72-77 | The same for the whole import: `l` is a language of the table read by `readCsv`. |
| Import.IntendedPackagesWrites | src/Console/ImportLanguages.php:166-180 | Corrected: each file of a vendor's packages is `target/vendor/<v>/<p>/<language>/<f>.php`, holding entry `f` of package `p`. |
| Import.IntendedVendorWrites | src/Console/ImportLanguages.php:158-181 | Corrected: each vendor file comes from a vendor, a package and a file entry, three levels down, and goes to that folder. |
| Import.GetPathStep | src/Console/ImportLanguages.php:128 | Following a key into an array of a well-formed tree. |
| Import.VendorFileFound | src/Console/ImportLanguages.php:135-139 | An entry three levels below `vendor` is found at its four-segment path. |
| Import.IntendedVendorFiles | src/Console/ImportLanguages.php:135-145 | Corrected: every vendor file holds the array at `vendor.<v>.<p>.<f>`. |
| Import.IntendedLanguagePaths | src/Console/ImportLanguages.php:121-181 | Corrected: every file is either `target/vendor/<v>/<p>/<language>/<f>.php` holding the array at `vendor.<v>.<p>.<f>`, or `target/<language>/<k>.php` holding top-level array `k`. |
| VendorFindings.VendorKeyExpansion | src/Console/ImportLanguages.php:126-129 | `array_set` of `vendor.v.p.f.k` into an empty array nests the value five levels deep. |
| VendorFindings.VendorLevelTakenAsPackage | src/Console/ImportLanguages.php:166-179 | As written, the key `vendor.v.p.f.k` is written to `target/vendor/v/<language>/p.php`. |
| VendorFindings.TargetFolderAccumulates | src/Console/ImportLanguages.php:173-177 | As written, the table rows `vendor.acme.pkg.x` => "1" and `vendor.beta.lib.y` => "2" of `en` under `lang` are written to `lang/vendor/acme/en/pkg.php` and then `lang/vendor/acme/en//vendor/beta/en/lib.php`. |
| VendorFindings.IntendedVendorFile | src/Console/ImportLanguages.php:158-181 | Corrected, the same key goes to `target/vendor/v/p/<language>/f.php` and holds `[k => value]`. |
| FileWriting.Escape | src/FileWriter.php:83-86 | `str_replace('"', '\"', …)`: a backslash in front of every double quote. Stated by `FileWriting.EscapeRoundTrip`, `FileWriting.EscapeLength` and `FileWriting.EscapedQuotes`. |
| FileWriting.ToKey | src/FileWriter.php:69-72 | The key between double quotes, escaped, then ` => `. Stated by `FileWriting.ToKeyRecovers`. |
| FileWriting.ToValue | src/FileWriter.php:74-77 | The value between double quotes, escaped. Stated by `FileWriting.ToValueRecovers`. |
| FileWriting.EscapeRoundTrip | src/FileWriter.php:83-86 | Escaping loses nothing: unescaping gives the string back. |
| FileWriting.EscapeNotQuoteFirst | src/FileWriter.php:83-86 | An escaped string never starts with a quote. |
| FileWriting.EscapeLength | src/FileWriter.php:83-86 | Escaping adds exactly one backslash per quote. |
| FileWriting.EscapeWithoutQuotes | src/FileWriter.php:83-86 | A string without quotes is left as it is. |
| FileWriting.EscapedQuotes | src/FileWriter.php:83-86 | Every quote of an escaped string comes right after a backslash. |
| FileWriting.ToKeyRecovers | src/FileWriter.php:69-72 | The key text is a quote, the escaped key, a quote and ` => `, and the key is recovered from it. |
| FileWriting.ToValueRecovers | src/FileWriter.php:74-77 | The value text is the escaped value between quotes, and the value is recovered from it. |
| FileWriting.TextAppend | src/FileWriter.php:102-105 | Writing two runs of lines gives the text of the first, then that of the second. |
| FileWriting.LinesCount | src/FileWriter.php:41-53 | `writeArray` writes one line per string and three per array, at every depth. |
| FileWriting.LinesDepth | src/FileWriter.php:41-53 | Every line of `writeArray($a, $depth)` has at least `$depth` tabs. |
| FileWriting.AtDepthEntry | src/FileWriter.php:44-51 | An entry's only lines at its own depth are its value line, or its key, `[` and `]` lines. |
| FileWriting.LinesAtDepth | src/FileWriter.php:41-53 | The lines at exactly `$depth` are the top-level entries' own lines, in order: nesting never writes at the parent's depth. |
| FileWriting.ContainerText | src/FileWriter.php:44-48 | An array entry's text: the key line and the `[` line, then its children one tab deeper, then the `]` line. |
| FileWriting.FileContentFrame | src/FileWriter.php:23-38 | A saved file starts with the prologue and ends with `];` and a newline. |
| FileWriting.FileWriter.constructor | src/FileWriter.php:23-30 | The filename is kept, and the buffer holds the `<?php` and `return [` lines. |
| FileWriting.FileWriter.Writeln | src/FileWriter.php:102-105 | The buffer grows by `$tabs` tabs, the content and a newline; the filename is unchanged. |
| FileWriting.FileWriter.WriteValue | src/FileWriter.php:60-63 | The buffer grows by the entry's value line: key text, value text and a comma, at `$depth` tabs. |
| FileWriting.FileWriter.WriteArray | src/FileWriter.php:41-53 | The buffer grows by the text of the array's lines at that depth. |
| FileWriting.FileWriter.WriteEntry | src/FileWriter.php:43-52 | One turn of `writeArray`'s loop: the buffer grows by the entry's lines. |
| FileWriting.FileWriter.Write | src/FileWriter.php:35-38 | The buffer grows by the text of the array's lines at depth 1. |
| FileWriting.FileWriter.Save | src/FileWriter.php:91-95 | The buffer grows by the `];` line; the filename is unchanged. |
| PhpStrings.Repeat | src/FileWriter.php:104 | `str_repeat` of one character gives `n` copies of it. |
| OrderedMaps.PutGet | src/Console/ImportLanguages.php:110 | After `$a[$k] = $v`, `$a[$k]` is `$v` and every other key keeps its value. |
| OrderedMaps.RemoveGet | src/Console/ImportLanguages.php:144 | After `unset($a[$k])`, `$a[$k]` is not set and every other key keeps its value. |
| OrderedMaps.PutKeys | src/Console/ImportLanguages.php:110 | `$a[$k] = $v` keeps the key order, and appends `$k` if it is new. |

## Left out

- File I/O is not modelled.
  - The export is given the directory tree and each file's `include` result. It returns the rows rather than writing `storage/app/translations.csv` with `fputcsv`.
  - The import is given decoded CSV rows. A file `fopen` cannot open, and CSV quoting, are not modelled.
  - `File::exists` / `File::makeDirectory` is the `ready` parameter.
  - `file_put_contents` is the `content` of each planned write.
- The argument handling of the import's `handle` (the `--target` default, `is_readable`, the confirmation prompt and `--force`) is not modelled; `Import.Handle` starts after those checks. The console messages of both commands are left out too.
- Each listing stands for what `scandir` returns: the names in ascending order, `.` and `..` included. The model takes the listing as given and does not sort it. No lemma depends on the order. Symbolic links are not modelled.
- The export runs under Laravel's error handler, which turns every PHP warning and notice into an `ErrorException`. The model records only that the command ends, with `Handle` returning no table. It does not model the exception's message, or the half-filled resources at the point of the warning, which are never written. The cases are:
  - `scandir` of a file (`FolderRaises`, `VendorRaises`, `LanguageRaises`);
  - `include` of a directory (`FileEntryRaises`);
  - the undefined index `keys` when the walk records no key.

  Plain PHP without that handler would instead carry on. It would skip a file that `scandir` cannot list, and record the `false` that `include` of a directory returns as an empty cell. The model does not follow that reading.
- The export's `$parsedResources` keeps `keys` and `languages` apart from the languages. In the source all three share one PHP array, so a language named `keys` or `languages` would clash with them; the model does not reproduce that clash.
- PHP's loose typing is left out.
  - Keys and header cells that look like integers are not turned into integer keys (`"1"` stays a string).
  - Values are strings; a language file returning numbers, booleans or `null` is not modelled.
- Whether the generated file is valid PHP is not modelled. An array entry's closing `]` has no comma, so ANY entry that follows an array entry (a string or another array) gives a file PHP cannot parse. `FileWriting.ContainerText` states exactly that text. `$` and a trailing backslash in a string are not escaped, and PHP reads them inside double quotes.
- LangTree.DotFound: requires every key of the file, at every depth, to be free of `.`. A key holding a `.` can spell the same dotted key as a nested path, and then the later string wins. `LangTree.DotOrigin` needs no such premise.
- `dropExtension` calls `implode($x, '.')` with its arguments in the legacy order. PHP 7 accepts that order and PHP 8 rejects it; the model follows PHP 7.
- The paths use `/` as `DIRECTORY_SEPARATOR`, whatever the platform.
- The writes of one import are not transactional. A `TypeError` (a string where `writeLanguageFile` or `processVendorFolder` expect an array) keeps the files written before it, and the model records them in `Plan.writes` with `aborted` set.
- `Import.ProcessVendorFolder`, `Import.WriteLanguage` and `Import.Handle` follow the source as written, including both vendor defects below. The corrected vendor handling is stated as the functions `IntendedVendorPlan` and `IntendedLanguagePlan`, with their lemmas, rather than as methods.
- `Export.ExportLanguages.BuildRows` states the table through `TableOf`. `fputcsv` writes `null` as an empty field, and the model keeps `None` in the row.

## Findings

| source | as written | input that shows it | evidently intended | confidence | as-written member | corrected member |
|---|---|---|---|---|---|---|
| src/Console/ImportLanguages.php:166-179 | `processVendorFolder` takes the entries of the `vendor` array as packages, so the vendor level is used as the package folder and the package becomes a file name | key `vendor.v.p.f.k` (exported from `vendor/v/p/<language>/f.php`) is written to `vendor/v/<language>/p.php` as `[f => [k => value]]` | the inverse of the export's `vendor/<vendor>/<package>/<language>/<file>.php` layout: `vendor/v/p/<language>/f.php` holding `[k => value]` | not executed | VendorFindings.VendorLevelTakenAsPackage | VendorFindings.IntendedVendorFile |
| src/Console/ImportLanguages.php:173-177 | the loop reassigns `$targetFolder`, so each package folder is built on the previous package's folder | the CSV rows `vendor.acme.pkg.x` => "1" and `vendor.beta.lib.y` => "2" for `en`, imported under `lang`: the second file is `lang/vendor/acme/en//vendor/beta/en/lib.php` | each package folder built from the same target folder | not executed | VendorFindings.TargetFolderAccumulates | Import.IntendedLanguagePaths |
