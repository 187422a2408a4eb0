/**
 * File path helpers: dropping a file extension, taking the directory part of
 * a path, and comparing two paths the way the host file system does.
 *
 * The working directory (`process.cwd()`) and the platform test
 * (`process.platform === 'win32'`) are parameters.
 */
module Path {
  import opened Text

  /** `filePath.lastIndexOf('.') < 0 ? filePath : filePath.substr(0, lastIndexOf('.'))`:
      everything before the last '.', or the whole path when it has none. */
  function StripExtension(filePath: string): (r: string)
    ensures |r| <= |filePath| && r == filePath[..|r|]
    ensures '.' !in filePath ==> r == filePath
    ensures '.' in filePath ==> |r| < |filePath| && filePath[|r|] == '.' && '.' !in filePath[|r| + 1..]
  {
    var sepIndex := LastIndexOf(filePath, '.');
    if sepIndex < 0 then filePath else filePath[..sepIndex]
  }

  predicate IsSeparator(c: char)
  {
    c == '/' || c == '\\'
  }

  /** The position of the last separator of either kind, or -1. */
  function LastSeparator(filePath: string): (k: int)
    ensures -1 <= k < |filePath|
    ensures k >= 0 ==> IsSeparator(filePath[k])
    ensures forall i :: k < i < |filePath| ==> !IsSeparator(filePath[i])
  {
    var sepIndexFwd := LastIndexOf(filePath, '/');
    var sepIndexBwd := LastIndexOf(filePath, '\\');
    var k := if sepIndexFwd > sepIndexBwd then sepIndexFwd else sepIndexBwd;
    k
  }

  /** `directory`: everything before the later of the last '/' and the last '\\';
      the working directory when the path has neither. */
  function Directory(filePath: string, cwd: string): (r: string)
    ensures LastSeparator(filePath) < 0 ==> r == cwd
    ensures LastSeparator(filePath) >= 0 ==>
      |r| < |filePath| && r == filePath[..|r|] && IsSeparator(filePath[|r|]) &&
      forall i :: |r| < i < |filePath| ==> !IsSeparator(filePath[i])
  {
    var sepIndex := LastSeparator(filePath);
    if sepIndex < 0 then cwd else filePath[..sepIndex]
  }

  /** `s.replace(/\\/g, '/')`. */
  function ForwardSlashes(s: string): (r: string)
    ensures |r| == |s|
    ensures forall i :: 0 <= i < |s| ==> r[i] == if s[i] == '\\' then '/' else s[i]
  {
    seq(|s|, i requires 0 <= i < |s| => if s[i] == '\\' then '/' else s[i])
  }

  /** `toLowerCase` on one character (ASCII letters). */
  function LowerChar(c: char): char
  {
    if 'A' <= c <= 'Z' then (c as int + 32) as char else c
  }

  function LowerCase(s: string): (r: string)
    ensures |r| == |s|
    ensures forall i :: 0 <= i < |s| ==> r[i] == LowerChar(s[i])
  {
    seq(|s|, i requires 0 <= i < |s| => LowerChar(s[i]))
  }

  /** The form two paths are compared in on the given platform. */
  function Normalized(filePath: string, win32: bool): string
  {
    if win32 then LowerCase(ForwardSlashes(filePath)) else ForwardSlashes(filePath)
  }

  /** `equal`: the same path once both separators are '/' (and, on Windows, once
      letters are lower case). */
  function Equal(filePath1: string, filePath2: string, win32: bool): bool
  {
    var fwd1 := ForwardSlashes(filePath1);
    var fwd2 := ForwardSlashes(filePath2);
    if win32 then LowerCase(fwd1) == LowerCase(fwd2) else fwd1 == fwd2
  }

  // ---------------------------------------------------------------------------
  // Properties

  /** Two paths are equal exactly when they have the same normalized form, which
      makes `Equal` an equivalence. */
  lemma EqualIsNormalizedEquality(p1: string, p2: string, win32: bool)
    ensures Equal(p1, p2, win32) <==> Normalized(p1, win32) == Normalized(p2, win32)
  {
  }

  lemma EqualReflexive(p: string, win32: bool)
    ensures Equal(p, p, win32)
  {
  }

  lemma EqualSymmetric(p1: string, p2: string, win32: bool)
    ensures Equal(p1, p2, win32) == Equal(p2, p1, win32)
  {
  }

  lemma EqualTransitive(p1: string, p2: string, p3: string, win32: bool)
    requires Equal(p1, p2, win32) && Equal(p2, p3, win32)
    ensures Equal(p1, p3, win32)
  {
  }

  /** Equal paths have the same length. */
  lemma EqualSameLength(p1: string, p2: string, win32: bool)
    requires Equal(p1, p2, win32)
    ensures |p1| == |p2|
  {
    assert |Normalized(p1, win32)| == |p2| by { EqualIsNormalizedEquality(p1, p2, win32); }
  }

  /** Swapping separators of either kind for the other never changes equality. */
  lemma EqualIgnoresSeparatorKind(p: string, win32: bool)
    ensures Equal(p, ForwardSlashes(p), win32)
  {
    assert ForwardSlashes(ForwardSlashes(p)) == ForwardSlashes(p);
  }

  /** Off Windows, two paths are equal exactly when they agree character by
      character, counting '/' and '\\' as the same. */
  lemma EqualOffWindows(p1: string, p2: string)
    ensures Equal(p1, p2, false) <==>
      |p1| == |p2| &&
      forall i :: 0 <= i < |p1| ==> (p1[i] == p2[i] || (IsSeparator(p1[i]) && IsSeparator(p2[i])))
  {
    if |p1| == |p2| &&
       forall i :: 0 <= i < |p1| ==> (p1[i] == p2[i] || (IsSeparator(p1[i]) && IsSeparator(p2[i]))) {
      assert ForwardSlashes(p1) == ForwardSlashes(p2);
    }
    if Equal(p1, p2, false) {
      forall i | 0 <= i < |p1| ensures p1[i] == p2[i] || (IsSeparator(p1[i]) && IsSeparator(p2[i])) {
        assert ForwardSlashes(p1)[i] == ForwardSlashes(p2)[i];
      }
    }
  }

  /** On Windows, two paths are equal exactly when they agree character by
      character once letters are lower case, counting '/' and '\\' as the same. */
  lemma EqualOnWindows(p1: string, p2: string)
    ensures Equal(p1, p2, true) <==>
      |p1| == |p2| &&
      forall i :: 0 <= i < |p1| ==>
        (LowerChar(p1[i]) == LowerChar(p2[i]) || (IsSeparator(p1[i]) && IsSeparator(p2[i])))
  {
    var n1 := Normalized(p1, true);
    var n2 := Normalized(p2, true);
    if |p1| == |p2| &&
       forall i :: 0 <= i < |p1| ==>
         (LowerChar(p1[i]) == LowerChar(p2[i]) || (IsSeparator(p1[i]) && IsSeparator(p2[i]))) {
      forall i | 0 <= i < |p1| ensures n1[i] == n2[i] {
        LowerSlashChar(p1[i], p2[i]);
      }
      assert n1 == n2;
    }
    if Equal(p1, p2, true) {
      forall i | 0 <= i < |p1|
        ensures LowerChar(p1[i]) == LowerChar(p2[i]) || (IsSeparator(p1[i]) && IsSeparator(p2[i]))
      {
        assert n1[i] == n2[i];
        LowerSlashChar(p1[i], p2[i]);
      }
    }
  }

  /** One character of `Normalized` on Windows. */
  lemma LowerSlashChar(c1: char, c2: char)
    ensures LowerChar(if c1 == '\\' then '/' else c1) == LowerChar(if c2 == '\\' then '/' else c2) <==>
      LowerChar(c1) == LowerChar(c2) || (IsSeparator(c1) && IsSeparator(c2))
  {
  }

  /** On Windows a path equals its lower-case form. */
  lemma EqualIgnoresCaseOnWindows(p: string)
    ensures Equal(p, LowerCase(p), true)
  {
    var q := LowerCase(p);
    forall i | 0 <= i < |p|
      ensures LowerChar(p[i]) == LowerChar(q[i]) || (IsSeparator(p[i]) && IsSeparator(q[i]))
    {
      assert LowerChar(LowerChar(p[i])) == LowerChar(p[i]);
    }
    EqualOnWindows(p, q);
  }

  /** On Windows the letter case of a path does not matter; elsewhere it does. */
  lemma EqualCase()
    ensures Equal("C:\\Jobs\\Job.json", "c:/jobs/job.json", true)
    ensures !Equal("Job.json", "job.json", false)
  {
    assert LowerChar('C') == 'c' && LowerChar('J') == 'j';
    assert ForwardSlashes("Job.json")[0] == 'J';
  }

  // ---------------------------------------------------------------------------
  // Extensions in directory names

  /** No separator of either kind in `s`. */
  predicate NoSeparator(s: string)
  {
    forall i :: 0 <= i < |s| ==> !IsSeparator(s[i])
  }

  lemma NoSeparatorAppend(a: string, b: string)
    requires NoSeparator(a) && NoSeparator(b)
    ensures NoSeparator(a + b)
  {
    forall i | 0 <= i < |a + b| ensures !IsSeparator((a + b)[i]) {
      if i < |a| { assert (a + b)[i] == a[i]; } else { assert (a + b)[i] == b[i - |a|]; }
    }
  }

  /** The extension rule as written looks for the last '.' in the whole path, so a
      file name without an extension in a directory whose name has one
      (`jobs.d/job`) loses the tail of its directory: the result is `jobs`, whose
      directory is the working directory rather than `jobs.d`. */
  lemma StripExtensionCrossesDirectories(dir: string, ext: string, name: string, cwd: string)
    requires NoSeparator(dir) && NoSeparator(ext) && NoSeparator(name)
    requires '.' !in ext && '.' !in name
    ensures StripExtension(dir + "." + ext + "/" + name) == dir
    ensures Directory(dir + "." + ext + "/" + name, cwd) == dir + "." + ext
    ensures Directory(StripExtension(dir + "." + ext + "/" + name), cwd) == cwd
  {
    StripAtDot(dir, ext, name);
    DirectoryAtSlash(dir + "." + ext, name, cwd);
    NoSeparatorHasNone(dir);
  }

  lemma StripAtDot(dir: string, ext: string, name: string)
    requires '.' !in ext && '.' !in name
    ensures StripExtension(dir + "." + ext + "/" + name) == dir
  {
    DotIsLast(dir, ext, name);
    assert (dir + "." + ext + "/" + name)[..|dir|] == dir;
  }

  lemma DirectoryAtSlash(a: string, name: string, cwd: string)
    requires NoSeparator(name)
    ensures Directory(a + "/" + name, cwd) == a
  {
    SlashIsLast(a, name);
    assert (a + "/" + name)[..|a|] == a;
  }

  lemma NoSeparatorHasNone(s: string)
    requires NoSeparator(s)
    ensures LastSeparator(s) == -1
  {
    assert '/' !in s && '\\' !in s by {
      forall i | 0 <= i < |s| ensures s[i] != '/' && s[i] != '\\' { assert !IsSeparator(s[i]); }
    }
  }

  lemma DotIsLast(dir: string, ext: string, name: string)
    requires '.' !in ext && '.' !in name
    ensures LastIndexOf(dir + "." + ext + "/" + name, '.') == |dir|
  {
    LastIndexOfSnoc(dir, '.');
    LastIndexOfAppend(dir + ".", ext, '.');
    LastIndexOfSnocOther(dir + "." + ext, '/', '.');
    LastIndexOfAppend(dir + "." + ext + "/", name, '.');
  }

  lemma SlashIsLast(a: string, name: string)
    requires NoSeparator(name)
    ensures LastSeparator(a + "/" + name) == |a|
  {
    var p := a + "/" + name;
    var m := |a|;
    assert IsSeparator(p[m]);
    forall i | m < i < |p| ensures !IsSeparator(p[i]) { assert p[i] == name[i - m - 1]; }
  }

  /** The extension rule restricted to the last path segment: a '.' counts only
      when no separator follows it. */
  function StripExtensionCorrected(filePath: string): (r: string)
    ensures |r| <= |filePath| && r == filePath[..|r|]
    ensures r != filePath ==> LastSeparator(filePath) < |r| && filePath[|r|] == '.'
  {
    var dot := LastIndexOf(filePath, '.');
    var k := LastSeparator(filePath);
    if dot < 0 || dot < k then filePath
    else
      assert filePath[dot] == '.' && k != dot;
      filePath[..dot]
  }

  /** Dropping the extension, corrected, never changes the directory part of a path:
      only the file name loses text. */
  lemma StripExtensionCorrectedKeepsDirectory(filePath: string, cwd: string)
    ensures Directory(StripExtensionCorrected(filePath), cwd) == Directory(filePath, cwd)
  {
    var r := StripExtensionCorrected(filePath);
    if r != filePath {
      DirectoryOfPrefix(filePath, |r|, cwd);
    }
  }

  /** Cutting a path after its last separator keeps its directory part. */
  lemma DirectoryOfPrefix(filePath: string, n: nat, cwd: string)
    requires LastSeparator(filePath) < n <= |filePath|
    ensures Directory(filePath[..n], cwd) == Directory(filePath, cwd)
  {
    var k := LastSeparator(filePath);
    LastSeparatorPrefix(filePath, n);
    if k >= 0 {
      assert filePath[..n][..k] == filePath[..k];
    }
  }

  /** Cutting a path after its last separator does not move the last separator. */
  lemma LastSeparatorPrefix(filePath: string, n: nat)
    requires LastSeparator(filePath) < n <= |filePath|
    ensures LastSeparator(filePath[..n]) == LastSeparator(filePath)
  {
    LastIndexOfPrefix(filePath, '/', n);
    LastIndexOfPrefix(filePath, '\\', n);
  }

  /** When the last '.' is in the file name, the correction changes nothing. */
  lemma StripExtensionCorrectedAgrees(filePath: string)
    requires LastIndexOf(filePath, '.') > LastSeparator(filePath) || '.' !in filePath
    ensures StripExtensionCorrected(filePath) == StripExtension(filePath)
  {
  }
}
