/** The searches for a file name that is not taken. */
module FileNames {
  import opened Decimal
  import opened Wrappers

  function Suffix(extension: Option<string>): string {
    match extension
    case None => ""
    case Some(e) => "." + e
  }

  function Numbered(path: string, index: nat, suffix: string): string {
    path + Dec(index) + suffix
  }

  lemma NumberedInjective(path: string, i: nat, j: nat, suffix: string)
    requires Numbered(path, i, suffix) == Numbered(path, j, suffix)
    ensures i == j
  {
    SameMiddle(path, Dec(i), Dec(j), suffix);
    DecInjective(i, j);
  }

  lemma SameMiddle(a: string, b: string, c: string, d: string)
    requires a + b + d == a + c + d
    ensures b == c
  {
    assert (a + b + d)[|a|..|a| + |b|] == b && (a + c + d)[|a|..|a| + |c|] == c;
  }

  /** All numbered names below the index are taken. */
  ghost predicate TakenBelow(files: set<string>, path: string, suffix: string, index: nat) {
    forall j :: 2 <= j < index ==> Numbered(path, j, suffix) in files
  }

  /** Whether r is the numbered name with the least free index from 2 upward. */
  ghost predicate IsFirstFree(files: set<string>, path: string, suffix: string, r: string) {
    exists k: nat :: 2 <= k && r == Numbered(path, k, suffix) && r !in files && TakenBelow(files, path, suffix, k)
  }

  ghost predicate AllTaken(files: set<string>, path: string, suffix: string, index: nat) {
    forall j :: 2 <= j < index ==> path + Dec(j) + suffix in files
  }

  /** In full: r is the path with a number from 2 upward and the suffix, is free, and all smaller
      numbers make taken names. */
  lemma FirstFreeInFull(files: set<string>, path: string, suffix: string, r: string)
    requires IsFirstFree(files, path, suffix, r)
    ensures r !in files
    ensures exists k: nat :: 2 <= k && r == path + Dec(k) + suffix && AllTaken(files, path, suffix, k)
  {
    var k: nat :| 2 <= k && r == Numbered(path, k, suffix) && r !in files && TakenBelow(files, path, suffix, k);
    forall j | 2 <= j < k
      ensures path + Dec(j) + suffix in files
    {
      assert Numbered(path, j, suffix) in files;
    }
    assert r == path + Dec(k) + suffix && AllTaken(files, path, suffix, k);
  }

  /** An extension comes behind a full stop. */
  lemma SuffixInFull(e: string)
    ensures Suffix(None) == "" && Suffix(Some(e)) == "." + e
  {
  }

  function Tried(path: string, suffix: string, index: nat): set<string> {
    set j | 2 <= j < index :: Numbered(path, j, suffix)
  }

  /** A taken name uses up one more of the finitely many files. */
  lemma SearchProgresses(files: set<string>, path: string, suffix: string, index: nat)
    requires index >= 2 && Numbered(path, index, suffix) in files
    ensures |files - Tried(path, suffix, index + 1)| < |files - Tried(path, suffix, index)|
  {
    var name := Numbered(path, index, suffix);
    var before, after := files - Tried(path, suffix, index), files - Tried(path, suffix, index + 1);
    forall j | 2 <= j < index
      ensures Numbered(path, j, suffix) != name
    {
      if Numbered(path, j, suffix) == name {
        NumberedInjective(path, j, index, suffix);
      }
    }
    assert name in before && name !in after && after <= before;
    Smaller(after, before, name);
  }

  lemma Smaller(a: set<string>, b: set<string>, x: string)
    requires a <= b && x in b && x !in a
    ensures |a| < |b|
  {
    assert a <= b - {x};
    Subset(a, b - {x});
  }

  lemma {:induction false} Subset(a: set<string>, b: set<string>)
    requires a <= b
    ensures |a| <= |b|
  {
    if a != {} {
      var x :| x in a;
      Subset(a - {x}, b - {x});
    }
  }

  /** Appends the extension, and a number before it if that name is taken. */
  method GetClosestUnusedFileName(base: string, extension: Option<string>, files: set<string>) returns (path: string)
    ensures path !in files
    ensures extension == None && base !in files ==> path == base
    ensures extension.Some? && base + ("." + extension.value) !in files ==> path == base + ("." + extension.value)
    ensures if base + Suffix(extension) !in files then path == base + Suffix(extension)
            else IsFirstFree(files, base, Suffix(extension), path)
  {
    var suffix := Suffix(extension);
    path := base + suffix;
    assert base + "" == base;
    if path !in files { return; }
    var index := 2;
    path := base + Dec(index) + suffix;
    while path in files
      invariant index >= 2 && path == Numbered(base, index, suffix)
      invariant TakenBelow(files, base, suffix, index)
      decreases |files - Tried(base, suffix, index)|
    {
      SearchProgresses(files, base, suffix, index);
      index := index + 1;
      path := base + Dec(index) + suffix;
    }
  }

  /** The place of the last full stop, or -1. */
  function LastDot(path: string): (i: int)
    ensures -1 <= i < |path|
    ensures i >= 0 ==> path[i] == '.'
    ensures i == -1 <==> '.' !in path
    ensures '.' !in path[i + 1..]
  {
    if path == [] then -1
    else
      var n := |path| - 1;
      assert path == path[..n] + [path[n]];
      if path[n] == '.' then n
      else
        var i := LastDot(path[..n]);
        assert path[i + 1..] == path[..n][i + 1..] + [path[n]];
        i
  }

  /** Puts a number before the extension if the name is taken.  The search is given up, and the
      taken name kept, exactly when the path contains no full stop. */
  method FindBestFilename(strPath: string, noSpace: bool, files: set<string>) returns (path: string)
    ensures path !in files <==> strPath !in files || '.' in strPath
    ensures strPath !in files || '.' !in strPath ==> path == strPath
    ensures strPath in files && '.' in strPath ==>
              IsFirstFree(files, strPath[..LastDot(strPath)] + (if noSpace then "_" else " ("),
                          (if noSpace then "" else ")") + strPath[LastDot(strPath)..], path)
  {
    path := strPath;
    if strPath !in files { return; }
    var extStart := LastDot(strPath);
    if extStart == -1 { return; }
    var stem, ext := strPath[..extStart], strPath[extStart..];
    var open, close := if noSpace then "_" else " (", if noSpace then "" else ")";
    path := FirstFree(stem, open, close, ext, files);
  }

  /** The search loop: inserts " (2)", " (3)", ... or "_2", "_3", ... */
  method FirstFree(stem: string, open: string, close: string, ext: string, files: set<string>) returns (path: string)
    ensures path !in files && IsFirstFree(files, stem + open, close + ext, path)
  {
    var num := 2;
    while true
      invariant num >= 2 && TakenBelow(files, stem + open, close + ext, num)
      decreases |files - Tried(stem + open, close + ext, num)|
    {
      var numStr := open + Dec(num) + close;
      path := stem + numStr + ext;
      Regrouped(stem, open, Dec(num), close, ext);
      if path !in files { return; }
      SearchProgresses(files, stem + open, close + ext, num);
      num := num + 1;
    }
  }

  lemma Regrouped(a: string, b: string, c: string, d: string, e: string)
    ensures a + (b + c + d) + e == (a + b) + c + (d + e)
  {
  }
}
