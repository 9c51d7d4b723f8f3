/** The System.IO.Path operations the application derives file names with, as .NET (Core 3 and
  * later) behaves on Windows: '\' and '/' separate directories, and an ASCII letter followed
  * by ':' at the start of a path names a drive. UNC and device roots are not modelled. */
module Paths {
  import opened Wrappers

  predicate IsDirectorySeparator(c: char) { c == '\\' || c == '/' }

  predicate NoSeparator(s: string) { forall i :: 0 <= i < |s| ==> !IsDirectorySeparator(s[i]) }

  /** What Windows accepts before the ':' of a drive. */
  predicate IsDriveLetter(c: char) { 'A' <= c <= 'Z' || 'a' <= c <= 'z' }

  /** The path starts with a drive, as in "C:". */
  predicate HasDrive(p: string) { |p| >= 2 && IsDriveLetter(p[0]) && p[1] == ':' }

  /** The last index before end whose character satisfies p. */
  function LastIndexBefore(s: string, p: char -> bool, end: nat): (r: Option<nat>)
    requires end <= |s|
    ensures r.Some? ==> r.value < end && p(s[r.value])
    ensures r.Some? ==> forall k :: r.value < k < end ==> !p(s[k])
    ensures r.None? ==> forall k :: 0 <= k < end ==> !p(s[k])
  {
    if end == 0 then None
    else if p(s[end - 1]) then Some(end - 1)
    else LastIndexBefore(s, p, end - 1)
  }

  /** Path.GetFileName: what follows the last separator, never reaching into the drive. */
  function FileName(path: string): (r: string)
    ensures NoSeparator(r)
    ensures |r| <= |path| && r == path[|path| - |r|..]
  {
    var start := match LastIndexBefore(path, IsDirectorySeparator, |path|)
      case None => 0
      case Some(i) => i + 1;
    if HasDrive(path) && start < 2 then path[2..] else path[start..]
  }

  predicate IsDot(c: char) { c == '.' }

  /** Path.GetFileNameWithoutExtension: the file name up to its last '.', if it has one. */
  function FileNameWithoutExtension(path: string): (r: string)
    ensures NoSeparator(r)
    ensures |r| <= |FileName(path)| && r == FileName(path)[..|r|]
  {
    var name := FileName(path);
    var dot := LastIndexBefore(name, IsDot, |name|);
    if dot.None? then name
    else
      var i := dot.value;
      assert forall k :: 0 <= k < i ==> name[..i][k] == name[k];
      name[..i]
  }

  /** Path.IsPathRooted: a path that Path.Combine keeps as it is instead of appending it. */
  predicate IsRooted(p: string) {
    (|p| >= 1 && IsDirectorySeparator(p[0])) || HasDrive(p)
  }

  /** Path.Combine(dir, name): the name, placed after the directory with one separator between
    * them, unless the name is rooted or either part is empty. */
  function Combine(dir: string, name: string): (r: string)
    ensures |name| <= |r| && r[|r| - |name|..] == name
  {
    if dir == [] then name
    else if name == [] then dir
    else if IsRooted(name) then name
    else if IsDirectorySeparator(dir[|dir| - 1]) then dir + name
    else dir + "\\" + name
  }

  /** Where GetFileName cuts: right after the last separator, right after the drive, or at the
    * start of a path that has neither; never inside the drive. */
  lemma FileNameCut(path: string)
    ensures var c := |path| - |FileName(path)|;
      (HasDrive(path) ==> c >= 2)
      && ((c == 0 && !HasDrive(path)) || (c == 2 && HasDrive(path)) || (c > 0 && IsDirectorySeparator(path[c - 1])))
  {
  }

  /** Where GetFileNameWithoutExtension cuts: before the last '.' of the file name, or nowhere
    * when it has none. */
  lemma ExtensionCut(path: string)
    ensures var name, r := FileName(path), FileNameWithoutExtension(path);
      if |r| == |name| then forall k :: 0 <= k < |name| ==> name[k] != '.'
      else name[|r|] == '.' && forall k :: |r| < k < |name| ==> name[k] != '.'
  {
    var name := FileName(path);
    var dot := LastIndexBefore(name, IsDot, |name|);
    if dot.Some? {
      assert FileNameWithoutExtension(path) == name[..dot.value];
    }
  }

  /** The shape of Path.Combine: a relative name follows the directory, with exactly one
    * separator before it, inserted only when the directory does not end in one; a rooted or
    * empty name gives the name or the directory. */
  lemma CombineShape(dir: string, name: string)
    ensures var r := Combine(dir, name);
      && (!IsRooted(name) ==> |dir| <= |r| && r[..|dir|] == dir)
      && (!IsRooted(name) && dir != [] && name != [] ==>
            |dir| + |name| <= |r| <= |dir| + 1 + |name| && IsDirectorySeparator(r[|r| - |name| - 1])
            && (IsDirectorySeparator(dir[|dir| - 1]) <==> |r| == |dir| + |name|))
      && (IsRooted(name) || name == [] ==> r == name || r == dir)
  {
  }

  /** Two different relative names stay different once placed in the same directory. */
  lemma RelativeCombineDistinct(dir: string, a: string, b: string)
    requires !IsRooted(a) && !IsRooted(b) && a != b
    ensures Combine(dir, a) != Combine(dir, b)
  {
    if dir != [] && a != [] && b != [] {
      var n := if IsDirectorySeparator(dir[|dir| - 1]) then |dir| else |dir| + 1;
      assert Combine(dir, a)[n..] == a;
      assert Combine(dir, b)[n..] == b;
    }
  }

  /** A relative file name placed in a directory is the file name of the combined path. */
  lemma FileNameOfCombine(dir: string, name: string)
    requires NoSeparator(name) && !IsRooted(name) && name != []
    ensures FileName(Combine(dir, name)) == name
  {
    if dir != [] {
      var front := if IsDirectorySeparator(dir[|dir| - 1]) then dir else dir + "\\";
      assert Combine(dir, name) == front + name;
      FileNameAfter(front, name);
    }
  }

  /** The file name of a path that ends in a separator and then a name is that name. */
  lemma FileNameAfter(front: string, name: string)
    requires front != [] && IsDirectorySeparator(front[|front| - 1]) && NoSeparator(name)
    ensures FileName(front + name) == name
  {
    var r := front + name;
    var k := |front| - 1;
    assert r[k] == front[k];
    assert forall j :: k < j < |r| ==> r[j] == name[j - k - 1];
    var found := LastIndexBefore(r, IsDirectorySeparator, |r|);
    assert found == Some(k);
    if HasDrive(r) {
      assert k >= 2 by { assert !IsDirectorySeparator(r[0]) && !IsDirectorySeparator(r[1]); }
    }
    assert r[k + 1..] == name;
  }

  /** Different relative file names in one directory are different paths. */
  lemma CombineInjective(dir: string, a: string, b: string)
    requires NoSeparator(a) && !IsRooted(a) && a != []
    requires NoSeparator(b) && !IsRooted(b) && b != []
    requires Combine(dir, a) == Combine(dir, b)
    ensures a == b
  {
    FileNameOfCombine(dir, a);
    FileNameOfCombine(dir, b);
  }

  /** Different non-empty names without a separator, rooted at a drive or not, give different
    * paths in one directory. */
  lemma CombineDistinct(dir: string, a: string, b: string)
    requires NoSeparator(a) && NoSeparator(b) && a != [] && b != [] && a != b
    ensures Combine(dir, a) != Combine(dir, b)
  {
    if !IsRooted(a) && !IsRooted(b) {
      RelativeCombineDistinct(dir, a, b);
    } else if IsRooted(a) && !IsRooted(b) {
      RootedBesideRelative(dir, a, b);
    } else if IsRooted(b) && !IsRooted(a) {
      RootedBesideRelative(dir, b, a);
    }
  }

  /** A drive-rooted name without separators is never a relative name placed in a directory. */
  lemma RootedBesideRelative(dir: string, a: string, b: string)
    requires NoSeparator(a) && IsRooted(a) && !IsRooted(b) && b != []
    ensures Combine(dir, a) != Combine(dir, b)
  {
    if dir != [] {
      var r := Combine(dir, b);
      assert IsDirectorySeparator(r[|r| - |b| - 1]);
    }
  }
}
