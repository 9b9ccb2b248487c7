/**
 * The two defects of the vendor handling of `writeLanguage` and
 * `processVendorFolder`, each shown on a concrete input, next to what the
 * corrected vendor processing writes for the same input.
 */
module VendorFindings {
  import opened Wrappers
  import opened OrderedMaps
  import opened PhpStrings
  import opened LangTree
  import opened Import

  /** A folder that exists or can be made. */
  function AllReady(folder: string): bool
  {
    true
  }

  /** A single exported key `vendor.v.p.f.k`, read from `vendor/v/p/<language>/f.php`. */
  predicate Segments(v: string, p: string, f: string, k: string)
  {
    '.' !in v && '.' !in p && '.' !in f && '.' !in k
  }

  function VendorKey(v: string, p: string, f: string, k: string): string
  {
    Implode('.', [VendorFolderName, v, p, f, k])
  }

  /** `array_set` of `vendor.v.p.f.k` into an empty array nests it five levels deep. */
  lemma VendorKeyExpansion(v: string, p: string, f: string, k: string, value: string)
    requires Segments(v, p, f, k)
    ensures Expand([Binding(VendorKey(v, p, f, k), value)])
         == [Binding(VendorFolderName, Container([Binding(v, Container([Binding(p, Container(
              [Binding(f, Container([Binding(k, Scalar(value))]))]))]))]))]
  {
    var parts := [VendorFolderName, v, p, f, k];
    assert NoSeparator('.', parts);
    ImplodeExplode('.', parts);
    var data := [Binding(VendorKey(v, p, f, k), value)];
    assert data[..0] == [];
    assert parts[1..] == [v, p, f, k];
    assert parts[1..][1..] == [p, f, k];
    assert parts[1..][1..][1..] == [f, k];
    assert parts[1..][1..][1..][1..] == [k];
    var leaf := [Binding(k, Scalar(value))];
    var file := [Binding(f, Container(leaf))];
    var package := [Binding(p, Container(file))];
    var vendor := [Binding(v, Container(package))];
    assert Expand(data) == ArraySet([], parts, value);
    assert ArraySet([], [k], value) == leaf;
    assert ArraySet([], [f, k], value) == file;
    assert ArraySet([], [p, f, k], value) == package;
    assert ArraySet([], [v, p, f, k], value) == vendor;
  }

  /**
   * As written, the level below `vendor` is taken as the package: the key
   * `vendor.v.p.f.k`, which the exporter read from `vendor/v/p/<language>/f.php`,
   * is written to `vendor/v/<language>/p.php`, one level too shallow.
   */
  lemma VendorLevelTakenAsPackage(language: string, target: string, v: string, p: string, f: string, k: string, value: string)
    requires Segments(v, p, f, k)
    ensures LanguagePlan(language, [Binding(VendorKey(v, p, f, k), value)], target, AllReady)
         == Plan([FileWrite(VendorPackageFolder(target, v, language) + p + Extension,
                        [Binding(f, Container([Binding(k, Scalar(value))]))])], false)
  {
    VendorKeyExpansion(v, p, f, k, value);
    var leaf := [Binding(k, Scalar(value))];
    var file := [Binding(f, Container(leaf))];
    var package := [Binding(p, Container(file))];
    var vendor := [Binding(v, Container(package))];
    var expanded := [Binding(VendorFolderName, Container(vendor))];
    assert Get(expanded, VendorFolderName) == Some(Container(vendor));
    var w := FileWrite(VendorPackageFolder(target, v, language) + p + Extension, file);
    assert FolderFiles(package, VendorPackageFolder(target, v, language)) == Plan([w], false);
    assert VendorPlanAsWritten(language, vendor, target, AllReady) == Plan([w], false);
    assert Remove(expanded, VendorFolderName) == [];
  }

  /**
   * As written, `$targetFolder` keeps the folder of the previous package, so a
   * second vendor entry is written below the first one's folder: the table
   * rows `vendor.acme.pkg.x` and `vendor.beta.lib.y` of `en` give
   * `lang/vendor/acme/en/pkg.php` and then
   * `lang/vendor/acme/en//vendor/beta/en/lib.php`.
   */
  lemma TargetFolderAccumulates()
    ensures LanguagePlan("en", [Binding("vendor.acme.pkg.x", "1"), Binding("vendor.beta.lib.y", "2")], "lang", AllReady)
         == Plan([FileWrite("lang/vendor/acme/en/pkg.php", [Binding("x", Scalar("1"))]),
                  FileWrite("lang/vendor/acme/en//vendor/beta/en/lib.php", [Binding("y", Scalar("2"))])], false)
  {
    var data := [Binding("vendor.acme.pkg.x", "1"), Binding("vendor.beta.lib.y", "2")];
    AccumulationExpand();
    var e2 := [Binding(VendorFolderName, Container(TwoVendors()))];
    assert Get(e2, VendorFolderName) == Some(Container(TwoVendors()));
    assert Remove(e2, VendorFolderName) == [];
    AccumulationVendorPlan();
  }

  /** The vendor array of the two rows: `acme => [pkg => [x => 1]], beta => [lib => [y => 2]]`. */
  function TwoVendors(): OrderedMap<Node>
  {
    [Binding("acme", Container([Binding("pkg", Container([Binding("x", Scalar("1"))]))])),
     Binding("beta", Container([Binding("lib", Container([Binding("y", Scalar("2"))]))]))]
  }

  /** The two table keys split into their segments. */
  lemma AccumulationKeys()
    ensures Explode('.', "vendor.acme.pkg.x") == [VendorFolderName, "acme", "pkg", "x"]
    ensures Explode('.', "vendor.beta.lib.y") == [VendorFolderName, "beta", "lib", "y"]
  {
    var p1 := [VendorFolderName, "acme", "pkg", "x"];
    var p2 := [VendorFolderName, "beta", "lib", "y"];
    assert p1[1..] == ["acme", "pkg", "x"] && p1[1..][1..] == ["pkg", "x"] && p1[1..][1..][1..] == ["x"];
    assert p2[1..] == ["beta", "lib", "y"] && p2[1..][1..] == ["lib", "y"] && p2[1..][1..][1..] == ["y"];
    assert Implode('.', ["pkg", "x"]) == "pkg.x";
    assert Implode('.', ["acme", "pkg", "x"]) == "acme.pkg.x";
    assert Implode('.', p1) == "vendor.acme.pkg.x";
    assert Implode('.', ["lib", "y"]) == "lib.y";
    assert Implode('.', ["beta", "lib", "y"]) == "beta.lib.y";
    assert Implode('.', p2) == "vendor.beta.lib.y";
    assert NoSeparator('.', p1) && NoSeparator('.', p2);
    ImplodeExplode('.', p1);
    ImplodeExplode('.', p2);
  }

  lemma AccumulationExpand()
    ensures Expand([Binding("vendor.acme.pkg.x", "1"), Binding("vendor.beta.lib.y", "2")])
         == [Binding(VendorFolderName, Container(TwoVendors()))]
  {
    var data := [Binding("vendor.acme.pkg.x", "1"), Binding("vendor.beta.lib.y", "2")];
    var vs := TwoVendors();
    AccumulationKeys();
    assert data[..1] == [data[0]] && [data[0]][..0] == [];
    FirstRowSet();
    SecondRowSet();
    assert Expand(data[..1]) == [Binding(VendorFolderName, Container([vs[0]]))];
  }

  lemma FirstRowSet()
    ensures ArraySet([], [VendorFolderName, "acme", "pkg", "x"], "1") == [Binding(VendorFolderName, Container([TwoVendors()[0]]))]
  {
    var path := [VendorFolderName, "acme", "pkg", "x"];
    assert path[1..] == ["acme", "pkg", "x"];
    assert ["acme", "pkg", "x"][1..] == ["pkg", "x"] && ["pkg", "x"][1..] == ["x"];
    assert ArraySet([], ["x"], "1") == [Binding("x", Scalar("1"))];
    assert ArraySet([], ["pkg", "x"], "1") == TwoVendors()[0].value.entries;
    assert ArraySet([], ["acme", "pkg", "x"], "1") == [TwoVendors()[0]];
  }

  lemma SecondRowSet()
    ensures ArraySet([Binding(VendorFolderName, Container([TwoVendors()[0]]))], [VendorFolderName, "beta", "lib", "y"], "2")
         == [Binding(VendorFolderName, Container(TwoVendors()))]
  {
    var vs := TwoVendors();
    var path := [VendorFolderName, "beta", "lib", "y"];
    var e1 := [Binding(VendorFolderName, Container([vs[0]]))];
    assert path[1..] == ["beta", "lib", "y"];
    assert ["beta", "lib", "y"][1..] == ["lib", "y"] && ["lib", "y"][1..] == ["y"];
    assert Descend(e1, VendorFolderName) == [vs[0]];
    assert vs[0].key != "beta" by {
      assert vs[0].key[0] == 'a';
    }
    assert Get([vs[0]], "beta") == None;
    assert Descend([vs[0]], "beta") == [];
    assert ArraySet([], ["y"], "2") == [Binding("y", Scalar("2"))];
    assert ArraySet([], ["lib", "y"], "2") == vs[1].value.entries;
    assert Put([vs[0]], "beta", vs[1].value) == vs;
    assert ArraySet([vs[0]], ["beta", "lib", "y"], "2") == vs;
  }

  lemma AccumulationVendorPlan()
    ensures VendorPlanAsWritten("en", TwoVendors(), "lang", AllReady)
         == Plan([FileWrite("lang/vendor/acme/en/pkg.php", [Binding("x", Scalar("1"))]),
                  FileWrite("lang/vendor/acme/en//vendor/beta/en/lib.php", [Binding("y", Scalar("2"))])], false)
  {
    var vs := TwoVendors();
    var first := "lang/vendor/acme/en/";
    var second := "lang/vendor/acme/en//vendor/beta/en/";
    assert VendorPackageFolder("lang", "acme", "en") == first;
    assert VendorPackageFolder(first, "beta", "en") == second;
    var w1 := FileWrite(first + "pkg" + Extension, [Binding("x", Scalar("1"))]);
    var w2 := FileWrite(second + "lib" + Extension, [Binding("y", Scalar("2"))]);
    assert FolderFiles(vs[0].value.entries, first) == Plan([w1], false);
    assert FolderFiles(vs[1].value.entries, second) == Plan([w2], false);
    assert vs[1..] == [vs[1]] && [vs[1]][1..] == [];
    assert VendorPlanAsWritten("en", [vs[1]], first, AllReady) == Plan([w2], false);
    assert first + "pkg" + Extension == "lang/vendor/acme/en/pkg.php";
    assert second + "lib" + Extension == "lang/vendor/acme/en//vendor/beta/en/lib.php";
  }

  /**
   * As intended, the same key goes back to `vendor/v/p/<language>/f.php`,
   * the file the exporter read it from.
   */
  lemma IntendedVendorFile(language: string, target: string, v: string, p: string, f: string, k: string, value: string)
    requires Segments(v, p, f, k)
    ensures IntendedLanguagePlan(language, [Binding(VendorKey(v, p, f, k), value)], target, AllReady)
         == Plan([FileWrite(IntendedPackageFolder(target, v, p, language) + f + Extension, [Binding(k, Scalar(value))])], false)
  {
    VendorKeyExpansion(v, p, f, k, value);
    var leaf := [Binding(k, Scalar(value))];
    var file := [Binding(f, Container(leaf))];
    var package := [Binding(p, Container(file))];
    var vendor := [Binding(v, Container(package))];
    var expanded := [Binding(VendorFolderName, Container(vendor))];
    assert Get(expanded, VendorFolderName) == Some(Container(vendor));
    var w := FileWrite(IntendedPackageFolder(target, v, p, language) + f + Extension, leaf);
    assert FolderFiles(file, IntendedPackageFolder(target, v, p, language)) == Plan([w], false);
    assert IntendedPackagesPlan(language, v, package, target, AllReady) == Plan([w], false);
    assert IntendedVendorPlan(language, vendor, target, AllReady) == Plan([w], false);
    assert Remove(expanded, VendorFolderName) == [];
  }
}
