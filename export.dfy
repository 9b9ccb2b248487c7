/**
 * The export command (`translations:export`): scan the language directory
 * tree, flatten every language file to dotted keys, and build the rows of the
 * translation table: a header `Key, <languages>` and one row per dotted key.
 */
module Export {
  import opened Wrappers
  import opened OrderedMaps
  import opened PhpStrings
  import opened LangTree

  /**
   * An entry of a directory listing as `scandir` returns it, names included
   * ("." and ".." may be among them): a directory with its own listing, or a
   * language file with the array its `include` returns.
   */
  datatype FsNode = Directory(listing: OrderedMap<FsNode>) | LangFile(content: Node)

  predicate IsDotEntry(name: string)
  {
    name == "." || name == ".."
  }

  /**
   * `$this->parsedResources`: the dotted keys in first-seen order
   * (`['keys']`), the languages in first-seen order (`['languages']`), and one
   * key-to-value map per language (`[$language]`). Only the two key orders
   * are ever iterated, so the per-language maps need no order of their own.
   */
  datatype Resources = Resources(
    keys: seq<string>,
    languages: seq<string>,
    translations: map<string, map<string, string>>)

  const NoResources := Resources([], [], map[])

  /** `$this->parsedResources[$language][$key]`, `None` where `isset` fails. */
  function Lookup(r: Resources, language: string, key: string): Option<string>
  {
    if language in r.translations && key in r.translations[language]
    then Some(r.translations[language][key])
    else None
  }

  /**
   * Both orders are sets, the registered languages are the ones with a map,
   * every recorded key is listed, and every listed key holds a value in some
   * language.
   */
  ghost predicate Valid(r: Resources)
  {
    && Distinct(r.keys)
    && Distinct(r.languages)
    && (forall l :: l in r.translations <==> l in r.languages)
    && (forall l, k :: Lookup(r, l, k).Some? ==> k in r.keys)
    && (forall k :: k in r.keys ==> exists l :: Lookup(r, l, k).Some?)
  }

  /**
   * `r'` extends `r` under `prefix`: both orders only grow at the end, and
   * every key added or value changed starts with `prefix`.
   */
  ghost predicate Extends(r: Resources, r': Resources, prefix: string)
  {
    && r.keys <= r'.keys
    && r.languages <= r'.languages
    && (forall i :: |r.keys| <= i < |r'.keys| ==> prefix <= r'.keys[i])
    && (forall l, k :: Lookup(r', l, k) != Lookup(r, l, k) ==> prefix <= k)
  }

  lemma ExtendsTrans(r1: Resources, r2: Resources, r3: Resources, prefix: string)
    requires Extends(r1, r2, prefix) && Extends(r2, r3, prefix)
    ensures Extends(r1, r3, prefix)
  {
    forall i | |r1.keys| <= i < |r3.keys| ensures prefix <= r3.keys[i] {
      if i < |r2.keys| { assert r3.keys[i] == r2.keys[i]; }
    }
  }

  lemma ExtendsWeaken(r: Resources, r': Resources, prefix: string, longer: string)
    requires prefix <= longer && Extends(r, r', longer)
    ensures Extends(r, r', prefix)
  {
    forall i | |r.keys| <= i < |r'.keys| ensures prefix <= r'.keys[i] {
      PrefixTrans(prefix, longer, r'.keys[i]);
    }
    forall l, k | Lookup(r', l, k) != Lookup(r, l, k) ensures prefix <= k {
      PrefixTrans(prefix, longer, k);
    }
  }

  // ---- Recording one language file (ExportLanguages.php, scanLanguage) ----

  /** `keys[$kk] = true; [$language][$kk] = $vv`. */
  function RecordValue(r: Resources, language: string, key: string, value: string): Resources
  {
    var m := if language in r.translations then r.translations[language] else map[];
    Resources(AddNew(r.keys, key), r.languages, r.translations[language := m[key := value]])
  }

  /** The loop over the dotted file: arrays (only empty ones are left) are skipped. */
  function RecordFile(r: Resources, language: string, dotted: OrderedMap<Node>): Resources
    decreases |dotted|
  {
    if dotted == [] then r
    else
      var r' := RecordFile(r, language, dotted[..|dotted| - 1]);
      var b := dotted[|dotted| - 1];
      if b.value.Container? then r' else RecordValue(r', language, b.key, b.value.value)
  }

  /** `array_dot([$prefix . dropExtension($file) => $atts])`. */
  function LoadFile(prefix: string, name: string, content: Node): OrderedMap<Node>
  {
    Dot("", [Binding(prefix + DropExtension(name), content)])
  }

  /** The first-time registration of a language. */
  function Register(r: Resources, language: string): Resources
  {
    if language in r.translations then r
    else Resources(r.keys, r.languages + [language], r.translations[language := map[]])
  }

  /**
   * The loop over a language directory's files. A directory among them makes
   * `include` warn (`FileEntryRaises`); the fold skips it, and stands for a
   * walk where nothing raises.
   */
  function ScanFiles(r: Resources, prefix: string, language: string, files: OrderedMap<FsNode>): Resources
    decreases |files|
  {
    if files == [] then r
    else
      var r' := ScanFiles(r, prefix, language, files[..|files| - 1]);
      var f := files[|files| - 1];
      if IsDotEntry(f.key) || f.value.Directory? then r'
      else RecordFile(r', language, LoadFile(prefix, f.key, f.value.content))
  }

  /** `scanLanguage($prefix, $path, $language)`; a file here makes `scandir` warn (`LanguageRaises`). */
  function ScanLanguageSpec(r: Resources, prefix: string, dir: FsNode, language: string): Resources
  {
    var r' := Register(r, language);
    match dir
    case LangFile(_) => r'
    case Directory(files) => ScanFiles(r', prefix, language, files)
  }

  // ---- The directory walk (ExportLanguages.php, scanFolder and scanVendorFolder) ----

  /** `scanFolder($prefix, $path)`. */
  function ScanFolderSpec(r: Resources, prefix: string, dir: FsNode): Resources
    decreases dir
  {
    match dir
    case LangFile(_) => r
    case Directory(listing) => ScanRoot(r, prefix, listing)
  }

  /** The loop of `scanFolder`: `vendor` is the override tree, every other entry a language. */
  function ScanRoot(r: Resources, prefix: string, entries: OrderedMap<FsNode>): Resources
    decreases entries
  {
    if entries == [] then r
    else
      var r' := ScanRoot(r, prefix, entries[..|entries| - 1]);
      var e := entries[|entries| - 1];
      if IsDotEntry(e.key) then r'
      else if e.key == "vendor" then ScanVendorSpec(r', prefix + "vendor.", e.value)
      else ScanLanguageSpec(r', prefix, e.value, e.key)
  }

  /** `scanVendorFolder($prefix, $path)`. */
  function ScanVendorSpec(r: Resources, prefix: string, dir: FsNode): Resources
    decreases dir
  {
    match dir
    case LangFile(_) => r
    case Directory(vendors) => ScanVendors(r, prefix, vendors)
  }

  /** The outer loop of `scanVendorFolder`, over vendor directories. */
  function ScanVendors(r: Resources, prefix: string, vendors: OrderedMap<FsNode>): Resources
    decreases vendors
  {
    if vendors == [] then r
    else
      var r' := ScanVendors(r, prefix, vendors[..|vendors| - 1]);
      var v := vendors[|vendors| - 1];
      if IsDotEntry(v.key) then r'
      else
        match v.value
        case LangFile(_) => r'
        case Directory(packages) => ScanPackages(r', prefix + v.key + ".", packages)
  }

  /** The inner loop of `scanVendorFolder`: each package is scanned as a language root. */
  function ScanPackages(r: Resources, prefix: string, packages: OrderedMap<FsNode>): Resources
    decreases packages
  {
    if packages == [] then r
    else
      var r' := ScanPackages(r, prefix, packages[..|packages| - 1]);
      var p := packages[|packages| - 1];
      if IsDotEntry(p.key) then r'
      else ScanFolderSpec(r', prefix + p.key + ".", p.value)
  }

  // ---- Warnings that end the command ----

  /*
   * The command runs under Laravel's error handler, which turns every PHP
   * warning and notice into an `ErrorException`. The walk raises one at an
   * entry that is `scandir`-ed but is a file, or that is `include`-d but is a
   * directory. The `Scan*` functions above give the resources of a walk that
   * raises nothing.
   */

  /** `scanFolder` of `dir` raises: `dir` is a file, or one of its entries raises. */
  predicate FolderRaises(dir: FsNode)
    decreases dir
  {
    match dir
    case LangFile(_) => true
    case Directory(listing) => exists i :: 0 <= i < |listing| && RootEntryRaises(listing[i])
  }

  /** An entry of a language root raises: the `vendor` tree or a language directory raises. */
  predicate RootEntryRaises(e: Binding<FsNode>)
    decreases e
  {
    !IsDotEntry(e.key) && (if e.key == "vendor" then VendorRaises(e.value) else LanguageRaises(e.value))
  }

  /** `scanVendorFolder` of `dir` raises. */
  predicate VendorRaises(dir: FsNode)
    decreases dir
  {
    match dir
    case LangFile(_) => true
    case Directory(vendors) => exists i :: 0 <= i < |vendors| && VendorEntryRaises(vendors[i])
  }

  /** A vendor raises: it is a file, or one of its packages raises. */
  predicate VendorEntryRaises(v: Binding<FsNode>)
    decreases v
  {
    !IsDotEntry(v.key) &&
    match v.value
    case LangFile(_) => true
    case Directory(packages) => exists j :: 0 <= j < |packages| && PackageEntryRaises(packages[j])
  }

  /** A package raises when `scanFolder` of it does. */
  predicate PackageEntryRaises(p: Binding<FsNode>)
    decreases p
  {
    !IsDotEntry(p.key) && FolderRaises(p.value)
  }

  /** `scanLanguage` of `dir` raises: `dir` is a file, or one of its entries is a directory. */
  predicate LanguageRaises(dir: FsNode)
  {
    match dir
    case LangFile(_) => true
    case Directory(files) => exists i :: 0 <= i < |files| && FileEntryRaises(files[i])
  }

  predicate FileEntryRaises(f: Binding<FsNode>)
  {
    !IsDotEntry(f.key) && f.value.Directory?
  }

  // ---- What the scan records ----

  /** The string stored under `key` in a dotted file, if it is one (not an array). */
  function ScalarAt(dotted: OrderedMap<Node>, key: string): Option<string>
  {
    match Get(dotted, key)
    case Some(n) => if n.Scalar? then Some(n.value) else None
    case None => None
  }

  lemma ScalarAtSnoc(init: OrderedMap<Node>, b: Binding<Node>, k: string)
    requires b.key !in Keys(init)
    ensures ScalarAt(init + [b], k) ==
      if k == b.key then (if b.value.Scalar? then Some(b.value.value) else None) else ScalarAt(init, k)
    ensures ScalarAt(init, b.key) == None
  {
    GetSnoc(init, b, k);
    GetPresent(init, b.key);
  }

  lemma SplitLast(dotted: OrderedMap<Node>)
    requires DistinctKeys(dotted) && dotted != []
    ensures DistinctKeys(dotted[..|dotted| - 1])
    ensures dotted[|dotted| - 1].key !in Keys(dotted[..|dotted| - 1])
    ensures dotted == dotted[..|dotted| - 1] + [dotted[|dotted| - 1]]
  {
    assert Keys(dotted[..|dotted| - 1]) == Keys(dotted)[..|dotted| - 1];
  }

  /**
   * Recording a dotted file sets exactly its string leaves for the language:
   * an empty array is never recorded as a value, and other languages are untouched.
   */
  lemma {:induction false} RecordFileValues(r: Resources, language: string, dotted: OrderedMap<Node>)
    requires DistinctKeys(dotted)
    ensures var r' := RecordFile(r, language, dotted);
      && (forall k :: Lookup(r', language, k) == if ScalarAt(dotted, k).Some? then ScalarAt(dotted, k) else Lookup(r, language, k))
      && (forall l, k :: l != language ==> Lookup(r', l, k) == Lookup(r, l, k))
    decreases |dotted|
  {
    if dotted != [] {
      var init := dotted[..|dotted| - 1];
      var b := dotted[|dotted| - 1];
      SplitLast(dotted);
      forall k {
        ScalarAtSnoc(init, b, k);
      }
      RecordFileValues(r, language, init);
    }
  }

  /** The keys of a dotted file's strings, in the file's order; arrays (only empty ones are left) are not among them. */
  function StringKeys(dotted: OrderedMap<Node>): seq<string>
    decreases |dotted|
  {
    if dotted == [] then []
    else
      var b := dotted[|dotted| - 1];
      StringKeys(dotted[..|dotted| - 1]) + (if b.value.Container? then [] else [b.key])
  }

  /** `StringKeys` lists exactly the keys that hold a string. */
  lemma {:induction false} StringKeysMembers(dotted: OrderedMap<Node>)
    requires DistinctKeys(dotted)
    ensures forall k :: k in StringKeys(dotted) <==> ScalarAt(dotted, k).Some?
    decreases |dotted|
  {
    if dotted != [] {
      var init := dotted[..|dotted| - 1];
      var b := dotted[|dotted| - 1];
      SplitLast(dotted);
      forall k {
        ScalarAtSnoc(init, b, k);
      }
      StringKeysMembers(init);
    }
  }

  /**
   * The key order grows by the file's string keys not seen before, in the
   * file's order, appended at the end: an empty array never becomes a key.
   */
  lemma RecordFileKeysExact(r: Resources, language: string, dotted: OrderedMap<Node>)
    requires DistinctKeys(dotted)
    ensures var r' := RecordFile(r, language, dotted);
      && r'.languages == r.languages
      && r'.keys == AddAllNew(r.keys, StringKeys(dotted))
      && r.keys <= r'.keys
      && (forall k :: k in r'.keys <==> k in r.keys || ScalarAt(dotted, k).Some?)
      && (language in r.translations ==> r'.translations.Keys == r.translations.Keys)
  {
    RecordFileKeySet(r, language, dotted);
    RecordFileKeyOrder(r, language, dotted);
  }

  lemma {:induction false} RecordFileKeySet(r: Resources, language: string, dotted: OrderedMap<Node>)
    requires DistinctKeys(dotted)
    ensures var r' := RecordFile(r, language, dotted);
      && r'.languages == r.languages
      && r.keys <= r'.keys
      && (forall k :: k in r'.keys <==> k in r.keys || ScalarAt(dotted, k).Some?)
      && (language in r.translations ==> r'.translations.Keys == r.translations.Keys)
    decreases |dotted|
  {
    if dotted != [] {
      var init := dotted[..|dotted| - 1];
      var b := dotted[|dotted| - 1];
      SplitLast(dotted);
      forall k {
        ScalarAtSnoc(init, b, k);
      }
      RecordFileKeySet(r, language, init);
    }
  }

  lemma {:induction false} RecordFileKeyOrder(r: Resources, language: string, dotted: OrderedMap<Node>)
    ensures RecordFile(r, language, dotted).keys == AddAllNew(r.keys, StringKeys(dotted))
    decreases |dotted|
  {
    if dotted != [] {
      var init := dotted[..|dotted| - 1];
      var b := dotted[|dotted| - 1];
      RecordFileKeyOrder(r, language, init);
      var ks := StringKeys(init);
      if b.value.Container? {
        assert StringKeys(dotted) == ks + [];
        assert ks + [] == ks;
      } else {
        assert StringKeys(dotted) == ks + [b.key];
        assert (ks + [b.key])[..|ks|] == ks;
      }
    }
  }

  /** Recording a file whose keys all start with `root` extends the resources under `root` and keeps them valid. */
  lemma RecordFileValid(r: Resources, language: string, dotted: OrderedMap<Node>, root: string)
    requires Valid(r) && language in r.languages
    requires DistinctKeys(dotted) && DottedUnder(root, dotted)
    ensures Valid(RecordFile(r, language, dotted)) && Extends(r, RecordFile(r, language, dotted), root)
    ensures RecordFile(r, language, dotted).languages == r.languages
  {
    RecordFileKeepsValid(r, language, dotted);
    RecordFileExtends(r, language, dotted, root);
  }

  lemma RecordFileKeepsValid(r: Resources, language: string, dotted: OrderedMap<Node>)
    requires Valid(r) && language in r.languages && DistinctKeys(dotted)
    ensures Valid(RecordFile(r, language, dotted))
  {
    var r' := RecordFile(r, language, dotted);
    RecordFileValues(r, language, dotted);
    RecordFileKeySet(r, language, dotted);
    RecordFileKeys(r, language, dotted);
    RecordFileHasValues(r, language, dotted);
    assert forall l, k :: Lookup(r', l, k).Some? ==> k in r'.keys;
  }

  lemma RecordFileExtends(r: Resources, language: string, dotted: OrderedMap<Node>, root: string)
    requires Distinct(r.keys) && DistinctKeys(dotted) && DottedUnder(root, dotted)
    ensures Extends(r, RecordFile(r, language, dotted), root)
    ensures RecordFile(r, language, dotted).languages == r.languages
  {
    var r' := RecordFile(r, language, dotted);
    RecordFileValues(r, language, dotted);
    RecordFileKeySet(r, language, dotted);
    RecordFileKeys(r, language, dotted);
    forall k | ScalarAt(dotted, k).Some? ensures root <= k {
      GetPresent(dotted, k);
    }
    forall i | |r.keys| <= i < |r'.keys| ensures root <= r'.keys[i] {
      assert r'.keys[i] !in r'.keys[..|r.keys|];
    }
  }

  /** After recording, every listed key still holds a value in some language. */
  lemma RecordFileHasValues(r: Resources, language: string, dotted: OrderedMap<Node>)
    requires DistinctKeys(dotted)
    requires forall k :: k in r.keys ==> exists l :: Lookup(r, l, k).Some?
    ensures var r' := RecordFile(r, language, dotted);
      forall k :: k in r'.keys ==> exists l :: Lookup(r', l, k).Some?
  {
    var r' := RecordFile(r, language, dotted);
    RecordFileValues(r, language, dotted);
    RecordFileKeySet(r, language, dotted);
    forall k | k in r'.keys ensures exists l :: Lookup(r', l, k).Some? {
      if ScalarAt(dotted, k).Some? {
        assert Lookup(r', language, k).Some?;
      } else {
        var l :| Lookup(r, l, k).Some?;
        assert Lookup(r', l, k).Some?;
      }
    }
  }

  lemma {:induction false} RecordFileKeys(r: Resources, language: string, dotted: OrderedMap<Node>)
    requires Distinct(r.keys)
    ensures Distinct(RecordFile(r, language, dotted).keys)
    decreases |dotted|
  {
    if dotted != [] {
      RecordFileKeys(r, language, dotted[..|dotted| - 1]);
    }
  }

  /**
   * Every key recorded from file `name` of a language directory starts with
   * the caller's prefix followed by the file name without its extension.
   */
  lemma FileKeysUnderRoot(r: Resources, prefix: string, language: string, name: string, content: Node)
    requires Valid(r) && language in r.languages
    ensures var r' := RecordFile(r, language, LoadFile(prefix, name, content));
      Valid(r') && Extends(r, r', prefix + DropExtension(name)) && r'.languages == r.languages
  {
    var root := prefix + DropExtension(name);
    DotSingle("", root, content);
    assert "" + root == root;
    DotDistinct("", [Binding(root, content)]);
    RecordFileValid(r, language, LoadFile(prefix, name, content), root);
  }

  lemma {:induction false} ScanFilesValid(r: Resources, prefix: string, language: string, files: OrderedMap<FsNode>)
    requires Valid(r) && language in r.languages
    ensures var r' := ScanFiles(r, prefix, language, files);
      Valid(r') && Extends(r, r', prefix) && r'.languages == r.languages
    decreases |files|
  {
    if files != [] {
      var init := files[..|files| - 1];
      var f := files[|files| - 1];
      var r1 := ScanFiles(r, prefix, language, init);
      ScanFilesValid(r, prefix, language, init);
      if !(IsDotEntry(f.key) || f.value.Directory?) {
        FileKeysUnderRoot(r1, prefix, language, f.key, f.value.content);
        ExtendsWeaken(r1, ScanFiles(r, prefix, language, files), prefix, prefix + DropExtension(f.key));
        ExtendsTrans(r, r1, ScanFiles(r, prefix, language, files), prefix);
      }
    }
  }

  /** Scanning a language directory registers the language and records only keys under the prefix. */
  lemma ScanLanguageValid(r: Resources, prefix: string, dir: FsNode, language: string)
    requires Valid(r)
    ensures var r' := ScanLanguageSpec(r, prefix, dir, language);
      Valid(r') && Extends(r, r', prefix) && language in r'.languages
  {
    var r1 := Register(r, language);
    assert Valid(r1) && Extends(r, r1, prefix) by {
      if language !in r.translations {
        forall l, k | Lookup(r1, l, k).Some? ensures k in r1.keys {
          if l != language {
            assert Lookup(r1, l, k) == Lookup(r, l, k);
          }
        }
        assert Distinct(r1.languages);
        forall k | k in r1.keys ensures exists l :: Lookup(r1, l, k).Some? {
          var l :| Lookup(r, l, k).Some?;
          assert Lookup(r1, l, k) == Lookup(r, l, k);
        }
      }
    }
    if dir.Directory? {
      ScanFilesValid(r1, prefix, language, dir.listing);
      ExtendsTrans(r, r1, ScanLanguageSpec(r, prefix, dir, language), prefix);
    }
  }

  /**
   * The whole walk keeps the resources valid, only appends to the key and
   * language orders, and records only keys that start with the prefix,
   * which under `vendor/<v>/<p>/` is `vendor.<v>.<p>.`.
   */
  lemma {:induction false} ScanFolderValid(r: Resources, prefix: string, dir: FsNode)
    requires Valid(r)
    ensures var r' := ScanFolderSpec(r, prefix, dir); Valid(r') && Extends(r, r', prefix)
    decreases dir
  {
    match dir
    case LangFile(_) =>
    case Directory(listing) => ScanRootValid(r, prefix, listing);
  }

  lemma {:induction false} ScanRootValid(r: Resources, prefix: string, entries: OrderedMap<FsNode>)
    requires Valid(r)
    ensures var r' := ScanRoot(r, prefix, entries); Valid(r') && Extends(r, r', prefix)
    decreases entries
  {
    if entries != [] {
      var init := entries[..|entries| - 1];
      var e := entries[|entries| - 1];
      var r1 := ScanRoot(r, prefix, init);
      var r2 := ScanRoot(r, prefix, entries);
      ScanRootValid(r, prefix, init);
      if !IsDotEntry(e.key) {
        if e.key == "vendor" {
          ScanVendorValid(r1, prefix + "vendor.", e.value);
          ExtendsWeaken(r1, r2, prefix, prefix + "vendor.");
        } else {
          ScanLanguageValid(r1, prefix, e.value, e.key);
        }
        ExtendsTrans(r, r1, r2, prefix);
      }
    }
  }

  lemma {:induction false} ScanVendorValid(r: Resources, prefix: string, dir: FsNode)
    requires Valid(r)
    ensures var r' := ScanVendorSpec(r, prefix, dir); Valid(r') && Extends(r, r', prefix)
    decreases dir
  {
    match dir
    case LangFile(_) =>
    case Directory(vendors) => ScanVendorsValid(r, prefix, vendors);
  }

  lemma {:induction false} ScanVendorsValid(r: Resources, prefix: string, vendors: OrderedMap<FsNode>)
    requires Valid(r)
    ensures var r' := ScanVendors(r, prefix, vendors); Valid(r') && Extends(r, r', prefix)
    decreases vendors
  {
    if vendors != [] {
      var init := vendors[..|vendors| - 1];
      var v := vendors[|vendors| - 1];
      var r1 := ScanVendors(r, prefix, init);
      var r2 := ScanVendors(r, prefix, vendors);
      ScanVendorsValid(r, prefix, init);
      if !IsDotEntry(v.key) && v.value.Directory? {
        ScanPackagesValid(r1, prefix + v.key + ".", v.value.listing);
        ExtendsWeaken(r1, r2, prefix, prefix + v.key + ".");
        ExtendsTrans(r, r1, r2, prefix);
      }
    }
  }

  lemma {:induction false} ScanPackagesValid(r: Resources, prefix: string, packages: OrderedMap<FsNode>)
    requires Valid(r)
    ensures var r' := ScanPackages(r, prefix, packages); Valid(r') && Extends(r, r', prefix)
    decreases packages
  {
    if packages != [] {
      var init := packages[..|packages| - 1];
      var p := packages[|packages| - 1];
      var r1 := ScanPackages(r, prefix, init);
      var r2 := ScanPackages(r, prefix, packages);
      ScanPackagesValid(r, prefix, init);
      if !IsDotEntry(p.key) {
        ScanFolderValid(r1, prefix + p.key + ".", p.value);
        ExtendsWeaken(r1, r2, prefix, prefix + p.key + ".");
        ExtendsTrans(r, r1, r2, prefix);
      }
    }
  }

  // ---- Which entry a vendor key comes from ----

  /** `k` starts with `prefix + e.key + "."` for a directory `e` of `listing` other than "." and "..". */
  ghost predicate UnderEntry(prefix: string, listing: OrderedMap<FsNode>, k: string)
  {
    exists j :: 0 <= j < |listing| && !IsDotEntry(listing[j].key) && listing[j].value.Directory? &&
                prefix + listing[j].key + "." <= k
  }

  /** `k` starts with `prefix + v + "." + p + "."` for a vendor directory `v` of `vendors` and a package directory `p` of it. */
  ghost predicate UnderPackage(prefix: string, vendors: OrderedMap<FsNode>, k: string)
  {
    exists j :: 0 <= j < |vendors| && !IsDotEntry(vendors[j].key) && vendors[j].value.Directory? &&
                UnderEntry(prefix + vendors[j].key + ".", vendors[j].value.listing, k)
  }

  /** Every key `r'` adds or changes is `UnderEntry(prefix, listing, _)`. */
  ghost predicate ExtendsUnderEntries(r: Resources, r': Resources, prefix: string, listing: OrderedMap<FsNode>)
  {
    && r.keys <= r'.keys
    && (forall i :: |r.keys| <= i < |r'.keys| ==> UnderEntry(prefix, listing, r'.keys[i]))
    && (forall l, k :: Lookup(r', l, k) != Lookup(r, l, k) ==> UnderEntry(prefix, listing, k))
  }

  /** Every key `r'` adds or changes is `UnderPackage(prefix, vendors, _)`. */
  ghost predicate ExtendsUnderPackages(r: Resources, r': Resources, prefix: string, vendors: OrderedMap<FsNode>)
  {
    && r.keys <= r'.keys
    && (forall i :: |r.keys| <= i < |r'.keys| ==> UnderPackage(prefix, vendors, r'.keys[i]))
    && (forall l, k :: Lookup(r', l, k) != Lookup(r, l, k) ==> UnderPackage(prefix, vendors, k))
  }

  lemma UnderEntrySnoc(prefix: string, init: OrderedMap<FsNode>, e: Binding<FsNode>, k: string)
    requires UnderEntry(prefix, init, k)
    ensures UnderEntry(prefix, init + [e], k)
  {
    var j :| 0 <= j < |init| && !IsDotEntry(init[j].key) && init[j].value.Directory? && prefix + init[j].key + "." <= k;
    assert (init + [e])[j] == init[j];
  }

  lemma UnderEntryLast(prefix: string, init: OrderedMap<FsNode>, e: Binding<FsNode>, k: string)
    requires !IsDotEntry(e.key) && e.value.Directory? && prefix + e.key + "." <= k
    ensures UnderEntry(prefix, init + [e], k)
  {
    assert (init + [e])[|init|] == e;
  }

  lemma UnderPackageSnoc(prefix: string, init: OrderedMap<FsNode>, v: Binding<FsNode>, k: string)
    requires UnderPackage(prefix, init, k)
    ensures UnderPackage(prefix, init + [v], k)
  {
    var j :| 0 <= j < |init| && !IsDotEntry(init[j].key) && init[j].value.Directory? &&
             UnderEntry(prefix + init[j].key + ".", init[j].value.listing, k);
    assert (init + [v])[j] == init[j];
  }

  lemma UnderPackageLast(prefix: string, init: OrderedMap<FsNode>, v: Binding<FsNode>, k: string)
    requires !IsDotEntry(v.key) && v.value.Directory? && UnderEntry(prefix + v.key + ".", v.value.listing, k)
    ensures UnderPackage(prefix, init + [v], k)
  {
    assert (init + [v])[|init|] == v;
  }

  /** A skipped entry changes nothing. */
  lemma ExtendsUnderEntriesSkip(r: Resources, r1: Resources, prefix: string, init: OrderedMap<FsNode>, e: Binding<FsNode>)
    requires ExtendsUnderEntries(r, r1, prefix, init)
    ensures ExtendsUnderEntries(r, r1, prefix, init + [e])
  {
    forall i | |r.keys| <= i < |r1.keys| ensures UnderEntry(prefix, init + [e], r1.keys[i]) {
      UnderEntrySnoc(prefix, init, e, r1.keys[i]);
    }
    forall l, k | Lookup(r1, l, k) != Lookup(r, l, k) ensures UnderEntry(prefix, init + [e], k) {
      UnderEntrySnoc(prefix, init, e, k);
    }
  }

  /** A scanned directory entry adds keys under `prefix + e.key + "."` only. */
  lemma ExtendsUnderEntriesStep(r: Resources, r1: Resources, r2: Resources, prefix: string, init: OrderedMap<FsNode>, e: Binding<FsNode>)
    requires ExtendsUnderEntries(r, r1, prefix, init)
    requires !IsDotEntry(e.key) && e.value.Directory? && Extends(r1, r2, prefix + e.key + ".")
    ensures ExtendsUnderEntries(r, r2, prefix, init + [e])
  {
    forall i | |r.keys| <= i < |r2.keys| ensures UnderEntry(prefix, init + [e], r2.keys[i]) {
      if i < |r1.keys| {
        assert r2.keys[i] == r1.keys[i];
        UnderEntrySnoc(prefix, init, e, r1.keys[i]);
      } else {
        UnderEntryLast(prefix, init, e, r2.keys[i]);
      }
    }
    forall l, k | Lookup(r2, l, k) != Lookup(r, l, k) ensures UnderEntry(prefix, init + [e], k) {
      if Lookup(r1, l, k) != Lookup(r, l, k) {
        UnderEntrySnoc(prefix, init, e, k);
      } else {
        UnderEntryLast(prefix, init, e, k);
      }
    }
  }

  lemma ExtendsUnderPackagesSkip(r: Resources, r1: Resources, prefix: string, init: OrderedMap<FsNode>, v: Binding<FsNode>)
    requires ExtendsUnderPackages(r, r1, prefix, init)
    ensures ExtendsUnderPackages(r, r1, prefix, init + [v])
  {
    forall i | |r.keys| <= i < |r1.keys| ensures UnderPackage(prefix, init + [v], r1.keys[i]) {
      UnderPackageSnoc(prefix, init, v, r1.keys[i]);
    }
    forall l, k | Lookup(r1, l, k) != Lookup(r, l, k) ensures UnderPackage(prefix, init + [v], k) {
      UnderPackageSnoc(prefix, init, v, k);
    }
  }

  lemma ExtendsUnderPackagesStep(r: Resources, r1: Resources, r2: Resources, prefix: string, init: OrderedMap<FsNode>, v: Binding<FsNode>)
    requires ExtendsUnderPackages(r, r1, prefix, init)
    requires !IsDotEntry(v.key) && v.value.Directory?
    requires ExtendsUnderEntries(r1, r2, prefix + v.key + ".", v.value.listing)
    ensures ExtendsUnderPackages(r, r2, prefix, init + [v])
  {
    forall i | |r.keys| <= i < |r2.keys| ensures UnderPackage(prefix, init + [v], r2.keys[i]) {
      if i < |r1.keys| {
        assert r2.keys[i] == r1.keys[i];
        UnderPackageSnoc(prefix, init, v, r1.keys[i]);
      } else {
        UnderPackageLast(prefix, init, v, r2.keys[i]);
      }
    }
    forall l, k | Lookup(r2, l, k) != Lookup(r, l, k) ensures UnderPackage(prefix, init + [v], k) {
      if Lookup(r1, l, k) != Lookup(r, l, k) {
        UnderPackageSnoc(prefix, init, v, k);
      } else {
        UnderPackageLast(prefix, init, v, k);
      }
    }
  }

  /** Every key the package loop adds or changes starts with `prefix + p + "."` for one of its package directories `p`. */
  lemma {:induction false} ScanPackagesUnderEntries(r: Resources, prefix: string, packages: OrderedMap<FsNode>)
    requires Valid(r)
    ensures ExtendsUnderEntries(r, ScanPackages(r, prefix, packages), prefix, packages)
    decreases |packages|
  {
    if packages != [] {
      var init := packages[..|packages| - 1];
      var p := packages[|packages| - 1];
      var r1 := ScanPackages(r, prefix, init);
      var r2 := ScanPackages(r, prefix, packages);
      assert packages == init + [p];
      ScanPackagesUnderEntries(r, prefix, init);
      ScanPackagesValid(r, prefix, init);
      if !IsDotEntry(p.key) && p.value.Directory? {
        ScanFolderValid(r1, prefix + p.key + ".", p.value);
        ExtendsUnderEntriesStep(r, r1, r2, prefix, init, p);
      } else {
        ExtendsUnderEntriesSkip(r, r1, prefix, init, p);
      }
    }
  }

  /**
   * Every key the vendor loop adds or changes starts with
   * `prefix + v + "." + p + "."` for a vendor directory `v` and one of its
   * package directories `p`: under `vendor/<v>/<p>/` it is `vendor.<v>.<p>.`.
   */
  lemma {:induction false} ScanVendorsUnderPackages(r: Resources, prefix: string, vendors: OrderedMap<FsNode>)
    requires Valid(r)
    ensures ExtendsUnderPackages(r, ScanVendors(r, prefix, vendors), prefix, vendors)
    decreases |vendors|
  {
    if vendors != [] {
      var init := vendors[..|vendors| - 1];
      var v := vendors[|vendors| - 1];
      var r1 := ScanVendors(r, prefix, init);
      var r2 := ScanVendors(r, prefix, vendors);
      assert vendors == init + [v];
      ScanVendorsUnderPackages(r, prefix, init);
      ScanVendorsValid(r, prefix, init);
      if !IsDotEntry(v.key) && v.value.Directory? {
        ScanPackagesUnderEntries(r1, prefix + v.key + ".", v.value.listing);
        ExtendsUnderPackagesStep(r, r1, r2, prefix, init, v);
      } else {
        ExtendsUnderPackagesSkip(r, r1, prefix, init, v);
      }
    }
  }

  /**
   * A string at path `q` of `lang/vendor/v/p/L/f.php` is exported for
   * language `L` under `vendor.v.p.` + dropExtension(f) + "." + implode('.', q).
   */
  lemma VendorFileExported(r: Resources, v: string, p: string, language: string, f: string,
                           entries: OrderedMap<Node>, q: seq<string>, s: string)
    requires !IsDotEntry(v) && !IsDotEntry(p) && !IsDotEntry(language) && language != "vendor" && !IsDotEntry(f)
    requires WellFormed(entries) && DotFree(entries) && |q| >= 1 && GetPath(entries, q) == Some(Scalar(s))
    ensures var files := [Binding(f, LangFile(Container(entries)))];
      var root := Directory([Binding("vendor", Directory([Binding(v, Directory([Binding(p, Directory(
                    [Binding(language, Directory(files))]))]))]))]);
      Lookup(ScanFolderSpec(r, "", root), language,
             "vendor." + v + "." + p + "." + DropExtension(f) + "." + Implode('.', q)) == Some(s)
  {
    var files := [Binding(f, LangFile(Container(entries)))];
    var lb := Binding(language, Directory(files));
    var pb := Binding(p, Directory([lb]));
    var vb := Binding(v, Directory([pb]));
    var pre := "vendor." + v + "." + p + ".";
    var key := pre + DropExtension(f) + "." + Implode('.', q);
    VendorRootScan(r, vb);
    SingleVendorScan(r, "vendor.", vb);
    SinglePackageScan(r, "vendor." + v + ".", pb);
    assert "vendor." + v + "." + p + "." == pre;
    SingleLanguageScan(r, pre, lb);
    LoadFileFound(pre, f, entries, q, s);
    SingleFileValue(pre, f, Container(entries), key);
    ScanLanguageLookup(r, pre, files, language, language, key);
  }

  lemma VendorRootScan(r: Resources, vb: Binding<FsNode>)
    ensures ScanFolderSpec(r, "", Directory([Binding("vendor", Directory([vb]))])) == ScanVendors(r, "vendor.", [vb])
  {
    var top := Binding("vendor", Directory([vb]));
    assert [top][..0] == [];
    assert !IsDotEntry(top.key) by { assert |top.key| == 6; }
    assert "" + "vendor." == "vendor.";
    assert ScanRoot(r, "", [top][..0]) == r;
    assert ScanRoot(r, "", [top]) == ScanVendorSpec(r, "" + "vendor.", top.value);
    assert ScanFolderSpec(r, "", Directory([top])) == ScanRoot(r, "", [top]);
  }

  lemma SingleVendorScan(r: Resources, prefix: string, vb: Binding<FsNode>)
    requires !IsDotEntry(vb.key) && vb.value.Directory?
    ensures ScanVendors(r, prefix, [vb]) == ScanPackages(r, prefix + vb.key + ".", vb.value.listing)
  {
    assert [vb][..0] == [];
  }

  lemma SinglePackageScan(r: Resources, prefix: string, pb: Binding<FsNode>)
    requires !IsDotEntry(pb.key) && pb.value.Directory?
    ensures ScanPackages(r, prefix, [pb]) == ScanFolderSpec(r, prefix + pb.key + ".", pb.value)
  {
    assert [pb][..0] == [];
  }

  lemma SingleLanguageScan(r: Resources, prefix: string, lb: Binding<FsNode>)
    requires !IsDotEntry(lb.key) && lb.key != "vendor"
    ensures ScanRoot(r, prefix, [lb]) == ScanLanguageSpec(r, prefix, lb.value, lb.key)
  {
    assert [lb][..0] == [];
  }

  lemma SingleFileValue(prefix: string, f: string, content: Node, k: string)
    requires !IsDotEntry(f)
    ensures LastFileValue(prefix, [Binding(f, LangFile(content))], k) == ScalarAt(LoadFile(prefix, f, content), k)
  {
    assert [Binding(f, LangFile(content))][..0] == [];
  }

  // ---- What the walk records ----

  /**
   * A string at path `p` inside file `name` is flattened to the key
   * `prefix + dropExtension(name) + "." + implode('.', p)`, when the file's
   * keys hold no '.'.
   */
  lemma LoadFileFound(prefix: string, name: string, entries: OrderedMap<Node>, p: seq<string>, v: string)
    requires WellFormed(entries) && DotFree(entries)
    requires |p| >= 1 && GetPath(entries, p) == Some(Scalar(v))
    ensures ScalarAt(LoadFile(prefix, name, Container(entries)), prefix + DropExtension(name) + "." + Implode('.', p)) == Some(v)
  {
    var root := prefix + DropExtension(name);
    var sub := "" + root + ".";
    var file := [Binding(root, Container(entries))];
    var key := sub + Implode('.', p);
    assert file[..0] == [];
    DotLast("", file);
    DotFound(sub, entries, p, v);
    DotDistinct(sub, entries);
    MergeGet([], Dot(sub, entries), key);
    assert Get(LoadFile(prefix, name, Container(entries)), key) == Some(Scalar(v));
    assert key == root + "." + Implode('.', p);
  }

  /** The string that the last file of `files` holding one at key `k` (after flattening) gives it. */
  function LastFileValue(prefix: string, files: OrderedMap<FsNode>, k: string): Option<string>
    decreases |files|
  {
    if files == [] then None
    else
      var f := files[|files| - 1];
      var here := if IsDotEntry(f.key) || f.value.Directory? then None
                  else ScalarAt(LoadFile(prefix, f.key, f.value.content), k);
      if here.Some? then here else LastFileValue(prefix, files[..|files| - 1], k)
  }

  /**
   * The file loop of a language sets each key to the string of the last file
   * that has one there, and leaves the key alone when no file has; other
   * languages are untouched.
   */
  lemma {:induction false} ScanFilesLookup(r: Resources, prefix: string, language: string, files: OrderedMap<FsNode>, l: string, k: string)
    ensures Lookup(ScanFiles(r, prefix, language, files), l, k) ==
      if l == language && LastFileValue(prefix, files, k).Some? then LastFileValue(prefix, files, k) else Lookup(r, l, k)
    decreases |files|
  {
    if files != [] {
      var init := files[..|files| - 1];
      var f := files[|files| - 1];
      ScanFilesLookup(r, prefix, language, init, l, k);
      if !(IsDotEntry(f.key) || f.value.Directory?) {
        var dotted := LoadFile(prefix, f.key, f.value.content);
        DotDistinct("", [Binding(prefix + DropExtension(f.key), f.value.content)]);
        RecordFileValues(ScanFiles(r, prefix, language, init), language, dotted);
      }
    }
  }

  /** Scanning a language directory records, for that language, the strings of its files as `ScanFilesLookup` says. */
  lemma ScanLanguageLookup(r: Resources, prefix: string, files: OrderedMap<FsNode>, language: string, l: string, k: string)
    ensures Lookup(ScanLanguageSpec(r, prefix, Directory(files), language), l, k) ==
      if l == language && LastFileValue(prefix, files, k).Some? then LastFileValue(prefix, files, k) else Lookup(r, l, k)
  {
    ScanFilesLookup(Register(r, language), prefix, language, files, l, k);
  }

  /** Every entry of a listing other than ".", ".." and `vendor` is among the languages after the walk. */
  lemma {:induction false} ScanRootLanguages(r: Resources, prefix: string, entries: OrderedMap<FsNode>)
    requires Valid(r)
    ensures forall i :: 0 <= i < |entries| && !IsDotEntry(entries[i].key) && entries[i].key != "vendor" ==>
                          entries[i].key in ScanRoot(r, prefix, entries).languages
    decreases |entries|
  {
    if entries != [] {
      var init := entries[..|entries| - 1];
      var e := entries[|entries| - 1];
      var r1 := ScanRoot(r, prefix, init);
      var r2 := ScanRoot(r, prefix, entries);
      ScanRootLanguages(r, prefix, init);
      ScanRootValid(r, prefix, init);
      if !IsDotEntry(e.key) {
        if e.key == "vendor" {
          ScanVendorValid(r1, prefix + "vendor.", e.value);
        } else {
          ScanLanguageValid(r1, prefix, e.value, e.key);
        }
      }
      assert r1.languages <= r2.languages;
      forall i | 0 <= i < |entries| && !IsDotEntry(entries[i].key) && entries[i].key != "vendor"
        ensures entries[i].key in r2.languages
      {
        if i < |init| {
          assert entries[i] == init[i];
        }
      }
    }
  }

  /** Each language directory of the language root becomes a column of the table. */
  lemma LanguagesBecomeColumns(listing: OrderedMap<FsNode>)
    ensures var r := ScanFolderSpec(NoResources, "", Directory(listing));
      forall i :: 0 <= i < |listing| && !IsDotEntry(listing[i].key) && listing[i].key != "vendor" ==>
                    listing[i].key in Columns(r.languages)
  {
    ScanRootLanguages(NoResources, "", listing);
    ColumnsOrder(ScanFolderSpec(NoResources, "", Directory(listing)).languages);
  }

  // ---- The key order of the walk ----

  /** The string keys of each file of a language directory, file after file. */
  function FilesKeys(prefix: string, files: OrderedMap<FsNode>): seq<string>
    decreases |files|
  {
    if files == [] then []
    else
      var f := files[|files| - 1];
      FilesKeys(prefix, files[..|files| - 1]) +
        (if IsDotEntry(f.key) || f.value.Directory? then [] else StringKeys(LoadFile(prefix, f.key, f.value.content)))
  }

  function LanguageKeys(prefix: string, dir: FsNode): seq<string>
  {
    match dir
    case LangFile(_) => []
    case Directory(files) => FilesKeys(prefix, files)
  }

  /**
   * The string keys met by the walk of `dir`, in the order the walk meets
   * them, repeats included: the root's entries in listing order, `vendor`
   * under `vendor.<v>.<p>.`, every other entry as a language.
   */
  function FolderKeys(prefix: string, dir: FsNode): seq<string>
    decreases dir
  {
    match dir
    case LangFile(_) => []
    case Directory(listing) => RootKeys(prefix, listing)
  }

  function RootKeys(prefix: string, entries: OrderedMap<FsNode>): seq<string>
    decreases entries
  {
    if entries == [] then []
    else
      var e := entries[|entries| - 1];
      RootKeys(prefix, entries[..|entries| - 1]) +
        (if IsDotEntry(e.key) then []
         else if e.key == "vendor" then VendorKeys(prefix + "vendor.", e.value)
         else LanguageKeys(prefix, e.value))
  }

  function VendorKeys(prefix: string, dir: FsNode): seq<string>
    decreases dir
  {
    match dir
    case LangFile(_) => []
    case Directory(vendors) => VendorsKeys(prefix, vendors)
  }

  function VendorsKeys(prefix: string, vendors: OrderedMap<FsNode>): seq<string>
    decreases vendors
  {
    if vendors == [] then []
    else
      var v := vendors[|vendors| - 1];
      VendorsKeys(prefix, vendors[..|vendors| - 1]) +
        (if IsDotEntry(v.key) then []
         else match v.value
              case LangFile(_) => []
              case Directory(packages) => PackagesKeys(prefix + v.key + ".", packages))
  }

  function PackagesKeys(prefix: string, packages: OrderedMap<FsNode>): seq<string>
    decreases packages
  {
    if packages == [] then []
    else
      var p := packages[|packages| - 1];
      PackagesKeys(prefix, packages[..|packages| - 1]) +
        (if IsDotEntry(p.key) then [] else FolderKeys(prefix + p.key + ".", p.value))
  }

  /** The file loop appends the files' string keys not seen before, in the order met. */
  lemma {:induction false} ScanFilesKeys(r: Resources, prefix: string, language: string, files: OrderedMap<FsNode>)
    ensures ScanFiles(r, prefix, language, files).keys == AddAllNew(r.keys, FilesKeys(prefix, files))
    decreases |files|
  {
    if files != [] {
      var init := files[..|files| - 1];
      var f := files[|files| - 1];
      var r1 := ScanFiles(r, prefix, language, init);
      ScanFilesKeys(r, prefix, language, init);
      if IsDotEntry(f.key) || f.value.Directory? {
        AddAllNewAppend(r.keys, FilesKeys(prefix, init), []);
      } else {
        var dotted := LoadFile(prefix, f.key, f.value.content);
        DotDistinct("", [Binding(prefix + DropExtension(f.key), f.value.content)]);
        RecordFileKeyOrder(r1, language, dotted);
        AddAllNewAppend(r.keys, FilesKeys(prefix, init), StringKeys(dotted));
      }
    }
  }

  lemma ScanLanguageKeys(r: Resources, prefix: string, dir: FsNode, language: string)
    ensures ScanLanguageSpec(r, prefix, dir, language).keys == AddAllNew(r.keys, LanguageKeys(prefix, dir))
  {
    if dir.Directory? {
      ScanFilesKeys(Register(r, language), prefix, language, dir.listing);
    }
  }

  /** The walk appends the string keys it meets and has not seen before, in the order it meets them. */
  lemma {:induction false} ScanFolderKeys(r: Resources, prefix: string, dir: FsNode)
    ensures ScanFolderSpec(r, prefix, dir).keys == AddAllNew(r.keys, FolderKeys(prefix, dir))
    decreases dir
  {
    match dir
    case LangFile(_) =>
    case Directory(listing) => ScanRootKeys(r, prefix, listing);
  }

  lemma {:induction false} ScanRootKeys(r: Resources, prefix: string, entries: OrderedMap<FsNode>)
    ensures ScanRoot(r, prefix, entries).keys == AddAllNew(r.keys, RootKeys(prefix, entries))
    decreases entries
  {
    if entries != [] {
      var init := entries[..|entries| - 1];
      var e := entries[|entries| - 1];
      var r1 := ScanRoot(r, prefix, init);
      ScanRootKeys(r, prefix, init);
      if IsDotEntry(e.key) {
        AddAllNewAppend(r.keys, RootKeys(prefix, init), []);
      } else if e.key == "vendor" {
        ScanVendorKeys(r1, prefix + "vendor.", e.value);
        AddAllNewAppend(r.keys, RootKeys(prefix, init), VendorKeys(prefix + "vendor.", e.value));
      } else {
        ScanLanguageKeys(r1, prefix, e.value, e.key);
        AddAllNewAppend(r.keys, RootKeys(prefix, init), LanguageKeys(prefix, e.value));
      }
    }
  }

  lemma {:induction false} ScanVendorKeys(r: Resources, prefix: string, dir: FsNode)
    ensures ScanVendorSpec(r, prefix, dir).keys == AddAllNew(r.keys, VendorKeys(prefix, dir))
    decreases dir
  {
    match dir
    case LangFile(_) =>
    case Directory(vendors) => ScanVendorsKeys(r, prefix, vendors);
  }

  lemma {:induction false} ScanVendorsKeys(r: Resources, prefix: string, vendors: OrderedMap<FsNode>)
    ensures ScanVendors(r, prefix, vendors).keys == AddAllNew(r.keys, VendorsKeys(prefix, vendors))
    decreases vendors
  {
    if vendors != [] {
      var init := vendors[..|vendors| - 1];
      var v := vendors[|vendors| - 1];
      var r1 := ScanVendors(r, prefix, init);
      ScanVendorsKeys(r, prefix, init);
      if !IsDotEntry(v.key) && v.value.Directory? {
        ScanPackagesKeys(r1, prefix + v.key + ".", v.value.listing);
        AddAllNewAppend(r.keys, VendorsKeys(prefix, init), PackagesKeys(prefix + v.key + ".", v.value.listing));
      } else {
        AddAllNewAppend(r.keys, VendorsKeys(prefix, init), []);
      }
    }
  }

  lemma {:induction false} ScanPackagesKeys(r: Resources, prefix: string, packages: OrderedMap<FsNode>)
    ensures ScanPackages(r, prefix, packages).keys == AddAllNew(r.keys, PackagesKeys(prefix, packages))
    decreases packages
  {
    if packages != [] {
      var init := packages[..|packages| - 1];
      var p := packages[|packages| - 1];
      var r1 := ScanPackages(r, prefix, init);
      ScanPackagesKeys(r, prefix, init);
      if IsDotEntry(p.key) {
        AddAllNewAppend(r.keys, PackagesKeys(prefix, init), []);
      } else {
        ScanFolderKeys(r1, prefix + p.key + ".", p.value);
        AddAllNewAppend(r.keys, PackagesKeys(prefix, init), FolderKeys(prefix + p.key + ".", p.value));
      }
    }
  }

  /**
   * The export's keys, and so its data rows, are the string keys the walk
   * meets, each once, in first-seen order; and each of them holds a value.
   */
  lemma ExportKeyOrder(root: FsNode)
    ensures var r := ScanFolderSpec(NoResources, "", root);
      && r.keys == FirstOccurrences(FolderKeys("", root))
      && (forall k :: k in r.keys <==> k in FolderKeys("", root))
      && (r.keys == [] <==> FolderKeys("", root) == [])
      && (forall k :: k in r.keys ==> exists l :: Lookup(r, l, k).Some?)
  {
    ScanFolderKeys(NoResources, "", root);
    AddAllNewFirstOccurrences([], FolderKeys("", root));
    assert [] + FolderKeys("", root) == FolderKeys("", root);
    FirstOccurrencesMembers(FolderKeys("", root));
    ScanFolderValid(NoResources, "", root);
    var r := ScanFolderSpec(NoResources, "", root);
    if FolderKeys("", root) != [] {
      assert FolderKeys("", root)[0] in r.keys;
    }
    if r.keys != [] {
      assert r.keys[0] in FolderKeys("", root);
    }
  }

  // ---- "." and ".." are skipped at every level ----

  /** A listing with its "." and ".." entries left out. */
  function WithoutDotEntries(entries: OrderedMap<FsNode>): (r: OrderedMap<FsNode>)
    ensures forall i :: 0 <= i < |r| ==> !IsDotEntry(r[i].key)
    decreases |entries|
  {
    if entries == [] then []
    else
      var e := entries[|entries| - 1];
      WithoutDotEntries(entries[..|entries| - 1]) + (if IsDotEntry(e.key) then [] else [e])
  }

  lemma {:induction false} ScanRootSkipsDots(r: Resources, prefix: string, entries: OrderedMap<FsNode>)
    ensures ScanRoot(r, prefix, entries) == ScanRoot(r, prefix, WithoutDotEntries(entries))
    decreases |entries|
  {
    if entries != [] {
      var init := entries[..|entries| - 1];
      ScanRootSkipsDots(r, prefix, init);
      var w := WithoutDotEntries(init);
      var e := entries[|entries| - 1];
      if !IsDotEntry(e.key) {
        assert WithoutDotEntries(entries) == w + [e];
        assert (w + [e])[..|w|] == w;
      } else {
        assert WithoutDotEntries(entries) == w + [];
        assert w + [] == w;
      }
    }
  }

  lemma {:induction false} ScanVendorsSkipsDots(r: Resources, prefix: string, vendors: OrderedMap<FsNode>)
    ensures ScanVendors(r, prefix, vendors) == ScanVendors(r, prefix, WithoutDotEntries(vendors))
    decreases |vendors|
  {
    if vendors != [] {
      var init := vendors[..|vendors| - 1];
      ScanVendorsSkipsDots(r, prefix, init);
      var w := WithoutDotEntries(init);
      var v := vendors[|vendors| - 1];
      if !IsDotEntry(v.key) {
        assert WithoutDotEntries(vendors) == w + [v];
        assert (w + [v])[..|w|] == w;
      } else {
        assert WithoutDotEntries(vendors) == w + [];
        assert w + [] == w;
      }
    }
  }

  lemma {:induction false} ScanPackagesSkipsDots(r: Resources, prefix: string, packages: OrderedMap<FsNode>)
    ensures ScanPackages(r, prefix, packages) == ScanPackages(r, prefix, WithoutDotEntries(packages))
    decreases |packages|
  {
    if packages != [] {
      var init := packages[..|packages| - 1];
      ScanPackagesSkipsDots(r, prefix, init);
      var w := WithoutDotEntries(init);
      var p := packages[|packages| - 1];
      if !IsDotEntry(p.key) {
        assert WithoutDotEntries(packages) == w + [p];
        assert (w + [p])[..|w|] == w;
      } else {
        assert WithoutDotEntries(packages) == w + [];
        assert w + [] == w;
      }
    }
  }

  lemma {:induction false} ScanFilesSkipsDots(r: Resources, prefix: string, language: string, files: OrderedMap<FsNode>)
    ensures ScanFiles(r, prefix, language, files) == ScanFiles(r, prefix, language, WithoutDotEntries(files))
    decreases |files|
  {
    if files != [] {
      var init := files[..|files| - 1];
      ScanFilesSkipsDots(r, prefix, language, init);
      var w := WithoutDotEntries(init);
      var f := files[|files| - 1];
      if !IsDotEntry(f.key) {
        assert WithoutDotEntries(files) == w + [f];
        assert (w + [f])[..|w|] == w;
      } else {
        assert WithoutDotEntries(files) == w + [];
        assert w + [] == w;
      }
    }
  }

  // ---- The table (ExportLanguages.php, handle) ----

  const Defaults: seq<string> := ["en", "nl", "fr"]

  /** The language columns: the defaults, then the discovered languages not yet listed. */
  function Columns(discovered: seq<string>): seq<string>
  {
    AddAllNew(Defaults, discovered)
  }

  function Somes(xs: seq<string>): (r: seq<Option<string>>)
    ensures |r| == |xs| && forall i :: 0 <= i < |xs| ==> r[i] == Some(xs[i])
  {
    seq(|xs|, i requires 0 <= i < |xs| => Some(xs[i]))
  }

  /** The row of `key`: the key, then its value in each column's language, `null` where there is none. */
  function DataRow(r: Resources, columns: seq<string>, key: string): seq<Option<string>>
  {
    [Some(key)] + seq(|columns|, j requires 0 <= j < |columns| => Lookup(r, columns[j], key))
  }

  /**
   * The header languages: `en, nl, fr` first whether or not they were found,
   * then each discovered language not yet listed, in first-seen order, with no
   * duplicates and nothing else.
   */
  lemma ColumnsOrder(discovered: seq<string>)
    ensures var cols := Columns(discovered);
      && ["en", "nl", "fr"] <= cols
      && Distinct(cols)
      && cols == FirstOccurrences(Defaults + discovered)
      && (forall x :: x in cols <==> x in Defaults || x in discovered)
  {
    AddAllNewGrows(Defaults, discovered);
    AddAllNewFirstOccurrences(Defaults, discovered);
    FirstOccurrencesMembers(Defaults + discovered);
  }

  /** Directories `fr` and `de` only: the header languages are `en, nl, fr, de`. */
  lemma ColumnsExample()
    ensures Columns(["fr", "de"]) == ["en", "nl", "fr", "de"]
    ensures Columns([]) == ["en", "nl", "fr"]
  {
    assert AddAllNew(Defaults, ["fr", "de"][..1]) == Defaults;
  }

  /** `rows` is the table of `r`: the header row, then one row per key in key order. */
  predicate TableOf(r: Resources, rows: seq<seq<Option<string>>>)
  {
    var columns := Columns(r.languages);
    && |rows| == |r.keys| + 1
    && rows[0] == [Some("Key")] + Somes(columns)
    && forall i :: 0 <= i < |r.keys| ==> rows[1..][i] == DataRow(r, columns, r.keys[i])
  }

  /** The command object; its fields are `$this->parsedResources`. */
  class ExportLanguages {
    var keys: seq<string>
    var languages: seq<string>
    var translations: map<string, map<string, string>>

    function Parsed(): Resources
      reads this
    {
      Resources(keys, languages, translations)
    }

    constructor ()
      ensures Parsed() == NoResources
    {
      keys, languages, translations := [], [], map[];
    }

    /**
     * `handle`: reset the resources, scan the language root, build the rows.
     * `None` is the `ErrorException` that ends the command before any CSV
     * is written: a warning during the walk, or the undefined index `keys`
     * when the walk recorded no key.
     */
    method Handle(root: FsNode) returns (rows: Option<seq<seq<Option<string>>>>)
      modifies this
      ensures rows.None? <==> FolderRaises(root) || ScanFolderSpec(NoResources, "", root).keys == []
      ensures rows.Some? ==> Parsed() == ScanFolderSpec(NoResources, "", root)
      ensures rows.Some? ==> Valid(Parsed()) && TableOf(Parsed(), rows.value)
      ensures rows.Some? ==> keys == FirstOccurrences(FolderKeys("", root))
    {
      keys, languages, translations := [], [], map[];
      var raised := ScanFolder("", root);
      if raised || keys == [] {
        rows := None;
        return;
      }
      ScanFolderValid(NoResources, "", root);
      ExportKeyOrder(root);
      var table := BuildRows();
      rows := Some(table);
    }

    /** `scanFolder`; `raised` is the `ErrorException` of a warning, which ends the walk. */
    method ScanFolder(prefix: string, dir: FsNode) returns (raised: bool)
      modifies this
      ensures raised == FolderRaises(dir)
      ensures !raised ==> Parsed() == ScanFolderSpec(old(Parsed()), prefix, dir)
      decreases dir
    {
      match dir
      case LangFile(_) =>
        raised := true;
      case Directory(listing) =>
        raised := false;
        for i := 0 to |listing|
          invariant forall a :: 0 <= a < i ==> !RootEntryRaises(listing[a])
          invariant Parsed() == ScanRoot(old(Parsed()), prefix, listing[..i])
        {
          assert listing[..i + 1][..i] == listing[..i];
          var name := listing[i].key;
          if IsDotEntry(name) {
          } else if name == "vendor" {
            raised := ScanVendorFolder(prefix + "vendor.", listing[i].value);
          } else {
            raised := ScanLanguage(prefix, listing[i].value, name);
          }
          if raised {
            assert RootEntryRaises(listing[i]);
            return;
          }
        }
        assert listing[..|listing|] == listing;
    }

    /** `scanVendorFolder`. */
    method ScanVendorFolder(prefix: string, dir: FsNode) returns (raised: bool)
      modifies this
      ensures raised == VendorRaises(dir)
      ensures !raised ==> Parsed() == ScanVendorSpec(old(Parsed()), prefix, dir)
      decreases dir
    {
      match dir
      case LangFile(_) =>
        raised := true;
      case Directory(vendors) =>
        raised := false;
        for i := 0 to |vendors|
          invariant forall a :: 0 <= a < i ==> !VendorEntryRaises(vendors[a])
          invariant Parsed() == ScanVendors(old(Parsed()), prefix, vendors[..i])
        {
          assert vendors[..i + 1][..i] == vendors[..i];
          var vendor := vendors[i].key;
          if !IsDotEntry(vendor) {
            match vendors[i].value
            case LangFile(_) =>
              raised := true;
              assert VendorEntryRaises(vendors[i]);
              return;
            case Directory(packages) =>
              ghost var before := Parsed();
              for j := 0 to |packages|
                invariant forall b :: 0 <= b < j ==> !PackageEntryRaises(packages[b])
                invariant Parsed() == ScanPackages(before, prefix + vendor + ".", packages[..j])
              {
                assert packages[..j + 1][..j] == packages[..j];
                if !IsDotEntry(packages[j].key) {
                  raised := ScanFolder(prefix + vendor + "." + packages[j].key + ".", packages[j].value);
                  if raised {
                    assert PackageEntryRaises(packages[j]);
                    assert VendorEntryRaises(vendors[i]);
                    return;
                  }
                }
              }
              assert packages[..|packages|] == packages;
          }
        }
        assert vendors[..|vendors|] == vendors;
    }

    /** `scanLanguage`. */
    method ScanLanguage(prefix: string, dir: FsNode, language: string) returns (raised: bool)
      modifies this
      ensures raised == LanguageRaises(dir)
      ensures !raised ==> Parsed() == ScanLanguageSpec(old(Parsed()), prefix, dir, language)
    {
      if language !in translations {
        translations := translations[language := map[]];
        languages := languages + [language];
      }
      match dir
      case LangFile(_) =>
        raised := true;
      case Directory(files) =>
        raised := false;
        ghost var registered := Parsed();
        for i := 0 to |files|
          invariant forall a :: 0 <= a < i ==> !FileEntryRaises(files[a])
          invariant Parsed() == ScanFiles(registered, prefix, language, files[..i])
        {
          assert files[..i + 1][..i] == files[..i];
          var name := files[i].key;
          if !IsDotEntry(name) {
            match files[i].value
            case Directory(_) =>
              raised := true;
              assert FileEntryRaises(files[i]);
              return;
            case LangFile(content) =>
              var dotted := Dot("", [Binding(prefix + DropExtension(name), content)]);
              ghost var before := Parsed();
              for j := 0 to |dotted|
                invariant Parsed() == RecordFile(before, language, dotted[..j])
              {
                assert dotted[..j + 1][..j] == dotted[..j];
                var b := dotted[j];
                if !b.value.Container? {
                  if b.key !in keys {
                    keys := keys + [b.key];
                  }
                  var m := if language in translations then translations[language] else map[];
                  translations := translations[language := m[b.key := b.value.value]];
                }
              }
              assert dotted[..|dotted|] == dotted;
          }
        }
        assert files[..|files|] == files;
    }

    /** One data row: the key, then its value in each column's language, `null` where unset. */
    method BuildRow(columns: seq<string>, key: string) returns (row: seq<Option<string>>)
      ensures row == DataRow(Parsed(), columns, key)
    {
      row := [Some(key)];
      for j := 0 to |columns|
        invariant |row| == j + 1 && row[0] == Some(key)
        invariant forall c :: 0 <= c < j ==> row[c + 1] == Lookup(Parsed(), columns[c], key)
      {
        var cell := if columns[j] in translations && key in translations[columns[j]]
                    then Some(translations[columns[j]][key]) else None;
        row := row + [cell];
      }
    }

    /** The rows of `handle`: the header, then one row per key. */
    method BuildRows() returns (rows: seq<seq<Option<string>>>)
      ensures TableOf(Parsed(), rows)
    {
      var columns := Defaults;
      for i := 0 to |languages|
        invariant columns == AddAllNew(Defaults, languages[..i])
      {
        assert languages[..i + 1][..i] == languages[..i];
        if languages[i] !in columns {
          columns := columns + [languages[i]];
        }
      }
      assert languages[..|languages|] == languages;
      var header := [Some("Key")];
      for j := 0 to |columns|
        invariant header == [Some("Key")] + Somes(columns[..j])
      {
        assert columns[..j + 1] == columns[..j] + [columns[j]];
        header := header + [Some(columns[j])];
      }
      assert columns[..|columns|] == columns;
      rows := [header];
      for i := 0 to |keys|
        invariant |rows| == i + 1 && rows[0] == header
        invariant forall a :: 0 <= a < i ==> rows[1..][a] == DataRow(Parsed(), columns, keys[a])
      {
        var row := BuildRow(columns, keys[i]);
        rows := rows + [row];
        assert rows[1..][i] == row;
      }
    }
  }
}
