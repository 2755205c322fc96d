/** The portable paths of a backup package: which strings they are, and in which order they sort. */
module PortablePaths {
  import opened Ordering
  import opened BackupCatalog

  // The fixed paths of a package, spelled by component.
  const PRODUCT_PATH := "data" + "/" + ("product" + "." + "sqlite3")
  const CATALOG_PATH := "data" + "/" + ("assets" + "/" + ("assets" + "." + "sqlite3"))
  const PROGRESS_PATH := "progress" + "." + "json"
  const COMPATIBILITY_PATH := "receipts" + "/" + ("compatibility" + "." + "json")
  const OBJECTS_PREFIX := "data/assets/objects/"

  const MAX_PORTABLE_PATH_BYTES: nat := 240

  // --------------------------------------------------------- portable paths

  /** The parts of a path between its slashes. */
  function Components(s: string): (r: seq<string>)
    ensures |r| > 0
  {
    if s == "" then [""]
    else
      var rest := Components(s[1..]);
      if s[0] == '/' then [""] + rest else [[s[0]] + rest[0]] + rest[1..]
  }

  function Upper(c: char): char { if 'a' <= c <= 'z' then ((c as int) - 32) as char else c }

  function Lower(c: char): char { if 'A' <= c <= 'Z' then ((c as int) + 32) as char else c }

  function Lowered(s: string): string { seq(|s|, i requires 0 <= i < |s| => Lower(s[i])) }

  /** A component up to its first dot, in upper case. */
  function Stem(s: string): string {
    if s == "" || s[0] == '.' then "" else [Upper(s[0])] + Stem(s[1..])
  }

  const RESERVED: seq<string> := [
    "CON", "PRN", "AUX", "NUL",
    "COM1", "COM2", "COM3", "COM4", "COM5", "COM6", "COM7", "COM8", "COM9",
    "LPT1", "LPT2", "LPT3", "LPT4", "LPT5", "LPT6", "LPT7", "LPT8", "LPT9"]

  predicate PortableComponent(c: string) {
    && (c != "" ==> c[|c| - 1] != ' ' && c[|c| - 1] != '.')
    && Stem(c) !in RESERVED
  }

  predicate Portable(path: string) {
    && 0 < |path| <= MAX_PORTABLE_PATH_BYTES
    && path[0] != '/'
    && (forall c | c in path :: ' ' <= c <= '~' && c != '\\')
    && AllPortable(path)
  }

  predicate AllPortable(path: string) {
    forall c | c in Components(path) :: PortableComponent(c)
  }

  predicate NoSlash(s: string) { forall i | 0 <= i < |s| :: s[i] != '/' }

  lemma {:induction false} ComponentsOf(a: string, rest: string)
    requires NoSlash(a)
    ensures Components(a + "/" + rest) == [a] + Components(rest)
  {
    if a == "" {
      assert "" + "/" + rest == "/" + rest && ("/" + rest)[1..] == rest;
    } else {
      ComponentsOf(a[1..], rest);
      assert (a + "/" + rest)[1..] == a[1..] + "/" + rest;
      assert a == [a[0]] + a[1..];
    }
  }

  lemma {:induction false} OneComponent(a: string)
    requires NoSlash(a)
    ensures Components(a) == [a]
  {
    if a != "" {
      OneComponent(a[1..]);
      assert a == [a[0]] + a[1..];
    }
  }

  lemma {:induction false} StemLength(s: string)
    requires '.' !in s
    ensures |Stem(s)| == |s|
  {
    if s != "" { StemLength(s[1..]); }
  }

  lemma ReservedLength(s: string)
    requires |s| != 3 && |s| != 4
    ensures s !in RESERVED
  {
  }

  lemma HexIsPlain(s: string)
    requires IsHex(s) && s != ""  && |s| != 3 && |s| != 4
    ensures NoSlash(s) && PortableComponent(s)
  {
    assert '.' !in s;
    StemLength(s);
    ReservedLength(Stem(s));
  }

  lemma DataIsWord()
    ensures Word("data")
  {
    var s := Stem("data");
    assert s[0] == 'D' by { assert "data"[0] == 'd'; }
  }

  /** Every object path is usable and 90 bytes long. */
  lemma ObjectPathIsUsable(hash: string)
    requires IsHash(hash)
    ensures Usable(ObjectPath(hash)) && |ObjectPath(hash)| == 90
  {
    var a, b := hash[..2], hash[2..4];
    ObjectComponents(a, b, hash);
    ObjectPathIsSharded(hash);
    hide AllPortable, Usable;
    CleanIsUsable(ObjectPath(hash));
  }

  /** One more directory above a path. */
  lemma Under(a: string, rest: string)
    requires NoSlash(a) && PortableComponent(a) && AllPortable(rest)
    ensures AllPortable(a + "/" + rest)
  {
    ComponentsOf(a, rest);
    hide PortableComponent, Components;
  }

  lemma ObjectComponents(a: string, b: string, hash: string)
    requires |a| == 2 && |b| == 2 && |hash| == 64 && IsHex(a) && IsHex(b) && IsHex(hash)
    ensures AllPortable(Sharded(OBJECTS_PREFIX, a, b, hash))
  {
    HexIsPlain(a);
    HexIsPlain(b);
    HexIsPlain(hash);
    OneComponent(hash);
    assert AllPortable(hash) by { hide PortableComponent; }
    hide PortableComponent, AllPortable;
    Under(b, hash);
    Under(a, b + "/" + hash);
    InObjects(a + "/" + (b + "/" + hash));
    assert Sharded(OBJECTS_PREFIX, a, b, hash) == OBJECTS_PREFIX + (a + "/" + (b + "/" + hash)) by {
      assert a + "/" + (b + "/" + hash) == a + ("/" + (b + ("/" + hash)));
    }
  }

  lemma UnderThree(a: string, b: string, c: string, rest: string)
    requires NoSlash(a) && NoSlash(b) && NoSlash(c)
    requires PortableComponent(a) && PortableComponent(b) && PortableComponent(c) && AllPortable(rest)
    ensures AllPortable(a + "/" + b + "/" + c + "/" + rest)
  {
    hide PortableComponent, AllPortable;
    Under(c, rest);
    Under(b, c + "/" + rest);
    Under(a, b + "/" + (c + "/" + rest));
    assert a + "/" + b + "/" + c + "/" + rest == a + "/" + (b + "/" + (c + "/" + rest));
  }

  lemma InObjects(rest: string)
    requires AllPortable(rest)
    ensures AllPortable(OBJECTS_PREFIX + rest)
  {
    hide PortableComponent, AllPortable;
    DataIsWord();
    AssetsIsWord();
    ObjectsIsWord();
    assert OBJECTS_PREFIX == "data" + "/" + "assets" + "/" + "objects" + "/";
    UnderThree("data", "assets", "objects", rest);
  }

  lemma WordIsPlain(s: string)
    requires '.' !in s && NoSlash(s) && |s| > 4 && s[|s| - 1] != ' '
    ensures PortableComponent(s)
  {
    StemLength(s);
    ReservedLength(Stem(s));
  }

  lemma AssetsIsWord()
    ensures Word("assets")
  {
  }

  lemma ObjectsIsWord()
    ensures Word("objects")
  {
    hide PortableComponent;
    WordIsPlain("objects");
  }

  lemma ReceiptsIsWord()
    ensures Word("receipts")
  {
  }

  // ----------------------------------------------------------- fixed paths

  lemma {:induction false} StemStops(a: string, rest: string)
    requires '.' !in a
    ensures |Stem(a + "." + rest)| == |a|
  {
    if a == "" {
      assert (a + "." + rest)[0] == '.';
    } else {
      StemStops(a[1..], rest);
      assert (a + "." + rest)[1..] == a[1..] + "." + rest;
    }
  }

  /** Printable ASCII without a backslash or a capital. */
  predicate Plain(s: string) {
    forall i | 0 <= i < |s| :: ' ' <= s[i] <= '~' && s[i] != '\\' && !('A' <= s[i] <= 'Z')
  }

  /** A path this format uses as it stands: portable, and unchanged by case folding. */
  predicate Usable(path: string) { Portable(path) && Lowered(path) == path }

  predicate Clean(path: string) { path != "" && path[0] != '/' && Plain(path) && AllPortable(path) }

  lemma CleanIsUsable(path: string)
    requires Clean(path) && |path| <= MAX_PORTABLE_PATH_BYTES
    ensures Usable(path)
  {
  }

  /** A word that can name a directory. */
  predicate Word(s: string) { s != "" && Plain(s) && NoSlash(s) && PortableComponent(s) }

  lemma FileIsClean(name: string, extension: string)
    requires '.' !in name && Plain(name) && NoSlash(name) && |name| > 4
    requires Plain(extension) && NoSlash(extension) && extension != ""
    requires extension[|extension| - 1] != ' ' && extension[|extension| - 1] != '.'
    ensures Clean(name + "." + extension)
  {
    var file := name + "." + extension;
    StemStops(name, extension);
    ReservedLength(Stem(file));
    OneComponent(file);
  }

  lemma DirectoryIsClean(a: string, rest: string)
    requires Word(a) && Clean(rest)
    ensures Clean(a + "/" + rest)
  {
    Under(a, rest);
    hide AllPortable, PortableComponent;
  }

  /** The four fixed paths are usable and together 86 bytes long. */
  lemma FixedPathsAreUsable()
    ensures Usable(PRODUCT_PATH) && Usable(CATALOG_PATH) && Usable(PROGRESS_PATH) && Usable(COMPATIBILITY_PATH)
    ensures |PRODUCT_PATH| + |CATALOG_PATH| + |PROGRESS_PATH| + |COMPATIBILITY_PATH| == 86
  {
    hide Clean, Word, Usable;
    DataIsWord();
    AssetsIsWord();
    ReceiptsIsWord();
    DatabaseFilesAreClean();
    ReceiptFilesAreClean();
    DirectoryIsClean("data", "product" + "." + "sqlite3");
    DirectoryIsClean("assets", "assets" + "." + "sqlite3");
    DirectoryIsClean("data", "assets" + "/" + ("assets" + "." + "sqlite3"));
    DirectoryIsClean("receipts", "compatibility" + "." + "json");
    CleanIsUsable(PRODUCT_PATH);
    CleanIsUsable(CATALOG_PATH);
    CleanIsUsable(PROGRESS_PATH);
    CleanIsUsable(COMPATIBILITY_PATH);
  }

  lemma DatabaseFilesAreClean()
    ensures Clean("product" + "." + "sqlite3") && Clean("assets" + "." + "sqlite3")
  {
    hide Clean;
    FileIsClean("product", "sqlite3");
    FileIsClean("assets", "sqlite3");
  }

  lemma ReceiptFilesAreClean()
    ensures Clean("progress" + "." + "json") && Clean("compatibility" + "." + "json")
  {
    hide Clean;
    FileIsClean("progress", "json");
    FileIsClean("compatibility", "json");
  }

  // The order of a package's paths: catalog, objects, product database, receipts.

  lemma ObjectAfterCatalog(hash: string)
    requires IsHash(hash)
    ensures Less(CATALOG_PATH, ObjectPath(hash))
  {
    var name := "assets" + "." + "sqlite3";
    LessFirst(name, ObjectRelative(hash));
    hide Less, ObjectRelative;
    var prefix := "data" + "/" + ("assets" + "/");
    assert CATALOG_PATH == prefix + name && "data/assets/" == prefix;
    LessAfter(prefix, name, prefix, ObjectRelative(hash));
  }

  lemma ObjectBeforeProduct(hash: string)
    requires IsHash(hash)
    ensures Less(ObjectPath(hash), PRODUCT_PATH)
  {
  }

  lemma CatalogBeforeProduct()
    ensures Less(CATALOG_PATH, PRODUCT_PATH)
  {
  }

  lemma LessFirst(a: string, b: string)
    requires a != "" && b != "" && a[0] < b[0]
    ensures Less(a, b)
  {
  }

  lemma ReceiptsComeLast()
    ensures Less(PRODUCT_PATH, PROGRESS_PATH) && Less(PROGRESS_PATH, COMPATIBILITY_PATH)
  {
  }
}
