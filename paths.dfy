/**
 * Python's `posixpath` functions used by the scripts: `basename`, `dirname`, `join`, `splitext`.
 * Only '/' separates path components here; the Windows flavour (`ntpath`) is not modelled.
 */
module Paths {
  import opened Strings

  predicate IsSlash(c: char) { c == '/' }
  predicate NotSlash(c: char) { c != '/' }
  predicate IsDot(c: char) { c == '.' }
  predicate NotDot(c: char) { c != '.' }

  predicate NoSlash(s: string) { forall k :: 0 <= k < |s| ==> s[k] != '/' }

  /** The index just after the last '/' of `p`, 0 when it has none. */
  function TailStart(p: string): (i: nat)
    ensures i <= |p|
    ensures i > 0 ==> p[i - 1] == '/'
    ensures NoSlash(p[i..])
  {
    SpanStart(p, 0, |p|, NotSlash)
  }

  /** `os.path.basename(p)` */
  function Basename(p: string): (r: string)
    ensures NoSlash(r)
  {
    p[TailStart(p)..]
  }

  /** `os.path.dirname(p)`: the part before the last '/', without trailing slashes unless it is all slashes. */
  function Dirname(p: string): string
  {
    var head := p[..TailStart(p)];
    if head != [] && !(forall k :: 0 <= k < |head| ==> head[k] == '/')
    then head[..SpanStart(head, 0, |head|, IsSlash)]
    else head
  }

  /** `os.path.join(a, b)` */
  function Join(a: string, b: string): string
  {
    if StartsWith(b, "/") then b
    else if a == [] || EndsWith(a, "/") then a + b
    else a + "/" + b
  }

  /**
   * Where `os.path.splitext(p)` cuts `p`: at the last '.' of the last path component, provided that
   * some character before it in the component is not a '.'; at the end of `p` otherwise.
   */
  function ExtStart(p: string): (e: nat)
    ensures e <= |p|
  {
    var tail := TailStart(p);
    var afterDot := SpanStart(p, tail, |p|, NotDot);
    if afterDot > tail && SpanEnd(p, tail, IsDot) < afterDot - 1 then afterDot - 1 else |p|
  }

  /** `os.path.splitext(p)[0]` */
  function Stem(p: string): string { p[..ExtStart(p)] }

  /** `os.path.splitext(p)[1]` */
  function Ext(p: string): string { p[ExtStart(p)..] }

  /** `splitext` cuts `p` in two; the extension is empty or one '.' followed by neither '.' nor '/'. */
  lemma SplitExtParts(p: string)
    ensures Stem(p) + Ext(p) == p
    ensures Ext(p) == [] || (Ext(p)[0] == '.' && forall k :: 1 <= k < |Ext(p)| ==> Ext(p)[k] != '.' && Ext(p)[k] != '/')
    ensures Ext(p) != [] ==> Stem(p) != [] && Stem(p)[|Stem(p)| - 1] != '/'
  {
    var tail := TailStart(p);
    var afterDot := SpanStart(p, tail, |p|, NotDot);
    var e := ExtStart(p);
    if e < |p| {
      assert p[e] == '.';
      assert forall k :: e < k < |p| ==> p[k] != '.' && NotSlash(p[k]);
      assert SpanEnd(p, tail, IsDot) < e;
      assert tail <= SpanEnd(p, tail, IsDot);
      assert p[e - 1] != '/';
    }
  }

  /** One directory of `os.walk`: its path and the names of the files in it. */
  datatype WalkDir = WalkDir(dirpath: string, filenames: seq<string>)

  /** A join ends with the name joined on. */
  lemma JoinEndsWith(a: string, b: string)
    ensures EndsWith(Join(a, b), b)
  {
    var q := Join(a, b);
    assert q[|q| - |b|..] == b;
  }

  /**
   * Naming a file inside the directory of `p` keeps that directory: `dirname(join(dirname(p), name))`
   * is `dirname(p)` and the file's basename is `name`.
   */
  lemma JoinInDirname(p: string, name: string)
    requires name != [] && NoSlash(name)
    ensures Dirname(Join(Dirname(p), name)) == Dirname(p)
    ensures Basename(Join(Dirname(p), name)) == name
  {
    var d := Dirname(p);
    var q := Join(d, name);
    assert name[0] != '/';
    assert !StartsWith(name, "/");
    if d == [] {
      assert q == name;
      TailStartNoSlash(name);
    } else if EndsWith(d, "/") {
      assert q == d + name;
      DirnameAllSlashesOrClean(p);
      assert forall k :: 0 <= k < |d| ==> d[k] == '/';
      TailStartAfter(d, name);
      assert q[..TailStart(q)] == d;
    } else {
      assert q == (d + "/") + name;
      TailStartAfter(d + "/", name);
      var head := q[..TailStart(q)];
      assert head == d + "/";
      assert head[|head| - 1] == '/';
      assert d[|d| - 1] != '/';
      assert head[|d| - 1] == d[|d| - 1];
      assert !(forall k :: 0 <= k < |head| ==> head[k] == '/');
      var cut := SpanStart(head, 0, |head|, IsSlash);
      assert cut == |d| by {
        assert SpanStart(head, 0, |head| - 1, IsSlash) == |head| - 1;
      }
    }
  }

  lemma TailStartNoSlash(s: string)
    requires NoSlash(s)
    ensures TailStart(s) == 0
  {
    if TailStart(s) > 0 { assert s[TailStart(s) - 1] == '/'; }
  }

  lemma TailStartAfter(a: string, name: string)
    requires a != [] && a[|a| - 1] == '/' && NoSlash(name)
    ensures TailStart(a + name) == |a|
  {
    var q := a + name;
    assert q[|a| - 1] == '/';
    assert forall k :: |a| <= k < |q| ==> q[k] == name[k - |a|];
  }

  /** A non-empty `dirname` either ends in a character other than '/' or is made of slashes only. */
  lemma DirnameAllSlashesOrClean(p: string)
    ensures var d := Dirname(p); d == [] || d[|d| - 1] != '/' || forall k :: 0 <= k < |d| ==> d[k] == '/'
  {
    var head := p[..TailStart(p)];
    if head != [] && !(forall k :: 0 <= k < |head| ==> head[k] == '/') {
      var cut := SpanStart(head, 0, |head|, IsSlash);
      if cut == 0 {
        assert false;
      }
    }
  }
}
