/**
 * The POSIX flavour of Python's `os.path` functions the fixups use:
 * `isabs`, `join` (two parts) and `dirname`. Paths are strings with '/'
 * as the only separator.
 */
module Paths {

  /** `os.path.isabs(p)`: the path starts with the separator. */
  predicate IsAbs(p: string) {
    |p| > 0 && p[0] == '/'
  }

  /**
   * `os.path.join(a, b)`: an absolute `b` replaces `a`; otherwise a
   * separator is put between them unless `a` is empty or already ends
   * with one.
   */
  function PathJoin(a: string, b: string): (r: string)
    ensures IsAbs(b) ==> r == b
    ensures !IsAbs(b) ==> |r| >= |a| + |b| && r[..|a|] == a && r[|r| - |b|..] == b
    ensures !IsAbs(b) ==> |r| <= |a| + |b| + 1
    ensures !IsAbs(b) && a != [] ==> r[|r| - |b| - 1] == '/'
  {
    if IsAbs(b) then b
    else if a == [] || a[|a| - 1] == '/' then a + b
    else a + "/" + b
  }

  /** The length of the longest prefix of `p` that ends with '/' (0 if none). */
  function HeadLength(p: string): (n: nat)
    ensures n <= |p|
    ensures n > 0 ==> p[n - 1] == '/'
    ensures forall i :: n <= i < |p| ==> p[i] != '/'
  {
    if p == [] then 0
    else if p[|p| - 1] == '/' then |p|
    else HeadLength(p[..|p| - 1])
  }

  /** The string without its trailing separators. */
  function StripTrailingSlashes(p: string): (r: string)
    ensures |r| <= |p| && r == p[..|r|]
    ensures r == [] || r[|r| - 1] != '/'
    ensures forall i :: |r| <= i < |p| ==> p[i] == '/'
  {
    if p == [] || p[|p| - 1] != '/' then p else StripTrailingSlashes(p[..|p| - 1])
  }

  /** The string consists of separators only. */
  predicate AllSlashes(p: string) {
    forall i :: 0 <= i < |p| ==> p[i] == '/'
  }

  /**
   * `os.path.dirname(p)`: everything up to the last separator, with the
   * trailing separators removed unless nothing but separators is left.
   */
  function Dirname(p: string): (r: string)
    ensures |r| <= |p| && r == p[..|r|]
    ensures forall i :: |r| <= i < |p| && i >= HeadLength(p) ==> p[i] != '/'
    ensures AllSlashes(r) || r[|r| - 1] != '/'
  {
    var head := p[..HeadLength(p)];
    if head != [] && !AllSlashes(head) then StripTrailingSlashes(head) else head
  }

  /** A relative name joined to a directory ends with that name. */
  lemma JoinKeepsName(dir: string, name: string)
    requires !IsAbs(name)
    ensures PathJoin(dir, name)[|PathJoin(dir, name)| - |name|..] == name
  {
  }

  /** Appending text without a separator leaves the last separator where it was. */
  lemma {:induction false} HeadLengthAppend(p: string, n: string)
    requires forall i :: 0 <= i < |n| ==> n[i] != '/'
    requires p != [] && p[|p| - 1] == '/'
    ensures HeadLength(p + n) == |p|
    decreases |n|
  {
    if n != [] {
      var n0 := n[..|n| - 1];
      assert (p + n)[..|p + n| - 1] == p + n0;
      HeadLengthAppend(p, n0);
    } else {
      assert p + n == p;
    }
  }

  /**
   * `dirname(join(d, name))` is `d` for a directory `d` without a trailing
   * separator and a plain file name.
   */
  lemma DirnameOfJoin(d: string, name: string)
    requires d != [] && d[|d| - 1] != '/'
    requires forall i :: 0 <= i < |name| ==> name[i] != '/'
    ensures Dirname(PathJoin(d, name)) == d
  {
    var p := d + "/";
    assert PathJoin(d, name) == p + name;
    HeadLengthAppend(p, name);
    assert (p + name)[..|p|] == p;
    assert !AllSlashes(p) by {
      assert p[|d| - 1] != '/';
    }
    assert p[..|p| - 1] == d;
  }
}
