/**
 What `parse_file` does with one source file once the signature scan has
 run: derive the module name from the file's path and build one
 `Function` per captured signature, in the order they were found.
 */
module Loader {
  import opened PyStr
  import opened Signature

  /**
   A `pathlib` path: absolute or relative, and its components. `pathlib`
   drops empty and `.` components, so a well-formed path has none.
   */
  datatype FilePath = FilePath(absolute: bool, parts: seq<string>)

  predicate ValidPath(p: FilePath) {
    forall k :: 0 <= k < |p.parts| ==> p.parts[k] != "" && p.parts[k] != "." && '/' !in p.parts[k]
  }

  /** `str(path)`: the components joined by `/`, `.` for the empty relative path. */
  function PathText(p: FilePath): (r: string)
    ensures p.absolute ==> |r| > 0 && r[0] == '/'
  {
    if p.absolute then "/" + Join("/", p.parts)
    else if p.parts == [] then "."
    else Join("/", p.parts)
  }

  /** `path.name`: the last component, or the empty string when there is none. */
  function FileName(p: FilePath): (r: string)
    ensures p.parts != [] ==> r == p.parts[|p.parts| - 1]
  {
    if p.parts == [] then "" else p.parts[|p.parts| - 1]
  }

  /** `path.parent`: the path without its last component (the root and `.` are their own parents). */
  function Parent(p: FilePath): (r: FilePath)
    ensures r.absolute == p.absolute
    ensures p.parts != [] ==> r.parts + [FileName(p)] == p.parts
  {
    if p.parts == [] then p else FilePath(p.absolute, p.parts[..|p.parts| - 1])
  }

  /** The module name of a source file: its directory for `mod.rs`, otherwise the file name without `.rs`. */
  function ModuleName(p: FilePath): string {
    if FileName(p) == "mod.rs" then PathText(Parent(p)) else RemoveSuffix(FileName(p), ".rs")
  }

  /** One match of the signature scan: its four groups (the qualifier and the return type may be missing). */
  datatype Captures = Captures(asyncPref: Option<string>, name: string, parameters: string, returnType: Option<string>)

  /** A parsed source file: its module name and the functions it declares, in order. */
  datatype Module = Module(name: Option<string>, functions: seq<Function>)

  /** `parse_file`, given the matches the scan found in the file. */
  function ParseFile(path: FilePath, found: seq<Captures>): (m: Module)
    ensures m.name == Some(ModuleName(path))
    ensures |m.functions| == |found|
    ensures forall k :: 0 <= k < |found| ==>
      m.functions[k].parameters == Normalise(found[k].parameters) &&
      m.functions[k].name == Strip(found[k].name) &&
      (m.functions[k].asyncPref.Some? <==> Truthy(found[k].asyncPref)) &&
      (m.functions[k].asyncPref.Some? ==> m.functions[k].asyncPref.value == Strip(found[k].asyncPref.value)) &&
      (m.functions[k].returnType.Some? <==> Truthy(found[k].returnType)) &&
      (m.functions[k].returnType.Some? ==> m.functions[k].returnType.value == Strip(found[k].returnType.value))
  {
    Module(Some(ModuleName(path)), seq(|found|, k requires 0 <= k < |found| =>
      MakeFunction(found[k].asyncPref, found[k].name, found[k].parameters, found[k].returnType)))
  }

  /** The scan's qualifier group `(async )?`: either `async ` with its one space, or missing. */
  predicate Scanned(c: Captures) {
    c.asyncPref == None || c.asyncPref == Some("async ")
  }

  /** A scanned `async ` is kept as `async` and a missing one stays missing, so no qualifier comes out blank. */
  lemma ParseFileQualifiers(path: FilePath, found: seq<Captures>)
    requires forall k :: 0 <= k < |found| ==> Scanned(found[k])
    ensures forall k :: 0 <= k < |found| ==>
      ParseFile(path, found).functions[k].asyncPref == (if found[k].asyncPref.None? then None else Some("async"))
  {
    StripAsync();
  }

  lemma ParseFileOne(path: FilePath, c: Captures)
    ensures ParseFile(path, [c]) == Module(Some(ModuleName(path)), [MakeFunction(c.asyncPref, c.name, c.parameters, c.returnType)])
  {
  }

  // ---------------------------------------------------------------------
  // Paths

  lemma JoinStartsWithHead(sep: string, parts: seq<string>)
    requires parts != []
    ensures |parts[0]| <= |Join(sep, parts)| && Join(sep, parts)[..|parts[0]|] == parts[0]
  {
  }

  /** The text of a well-formed path is never empty, so a `mod.rs` module name is always set. */
  lemma PathTextNonEmpty(p: FilePath)
    requires ValidPath(p)
    ensures PathText(p) != ""
  {
    if !p.absolute && p.parts != [] {
      JoinStartsWithHead("/", p.parts);
      assert p.parts[0] != "";
    }
  }

  lemma ParentValid(p: FilePath)
    requires ValidPath(p)
    ensures ValidPath(Parent(p))
  {
  }

  // ---------------------------------------------------------------------
  // Module names

  /** A `mod.rs` file is named after the whole path of its directory, not the directory's last component. */
  lemma ModuleNameOfModRs(absolute: bool, dirs: seq<string>)
    ensures ModuleName(FilePath(absolute, dirs + ["mod.rs"])) == PathText(FilePath(absolute, dirs))
  {
    var p := FilePath(absolute, dirs + ["mod.rs"]);
    assert p.parts[..|p.parts| - 1] == dirs;
  }

  /** A top-level `mod.rs` gives the module name `.`. */
  lemma ModuleNameOfBareModRs()
    ensures ModuleName(FilePath(false, ["mod.rs"])) == "."
  {
    ModuleNameOfModRs(false, []);
  }

  /** `a/b/mod.rs` gives `a/b`. */
  lemma ModuleNameOfNestedModRs(a: string, b: string)
    ensures ModuleName(FilePath(false, [a, b, "mod.rs"])) == a + "/" + b
  {
    ModuleNameOfModRs(false, [a, b]);
    assert [a, b] + ["mod.rs"] == [a, b, "mod.rs"];
    assert Join("/", [a, b][1..]) == b;
  }

  /**
   Any other `stem.rs` gives `stem`, whatever directory it is in. Only one
   `.rs` goes: `x.rs.rs` gives `x.rs`.
   */
  lemma ModuleNameOfFile(absolute: bool, dirs: seq<string>, stem: string)
    requires stem + ".rs" != "mod.rs"
    ensures ModuleName(FilePath(absolute, dirs + [stem + ".rs"])) == stem
  {
    var n := stem + ".rs";
    assert FileName(FilePath(absolute, dirs + [n])) == n;
    assert n[|n| - 3..] == ".rs";
    assert n[..|n| - 3] == stem;
  }

  /** A file name without the `.rs` suffix is the module name unchanged. */
  lemma ModuleNameWithoutSuffix(absolute: bool, dirs: seq<string>, name: string)
    requires name != "mod.rs" && !EndsWith(name, ".rs")
    ensures ModuleName(FilePath(absolute, dirs + [name])) == name
  {
    assert FileName(FilePath(absolute, dirs + [name])) == name;
  }

  /**
   The module name of a file is empty, and so is dropped from the calls,
   exactly when the file is called `.rs`.
   */
  lemma ModuleNameEmpty(p: FilePath)
    requires ValidPath(p) && p.parts != []
    ensures ModuleName(p) == "" <==> FileName(p) == ".rs"
  {
    var n := FileName(p);
    if n == "mod.rs" {
      ParentValid(p);
      PathTextNonEmpty(Parent(p));
    } else if n == ".rs" {
      assert EndsWith(n, ".rs");
    } else if EndsWith(n, ".rs") {
      assert |n| > 3;
    } else {
      assert n != "";
    }
  }
}
