/**
 * The string functions the batch runner relies on: POSIX os.path.basename
 * and os.path.join, str.lower and str.endswith.
 */
module Paths {
  /** One past the last '/' of `p`, or 0 when there is none (rfind('/') + 1). */
  function NameStart(p: string): (i: nat)
    ensures i <= |p|
    ensures i > 0 ==> p[i - 1] == '/'
    ensures forall j :: i <= j < |p| ==> p[j] != '/'
  {
    if p == [] then 0
    else if p[|p| - 1] == '/' then |p|
    else NameStart(p[..|p| - 1])
  }

  /** os.path.basename: everything after the last '/', the whole path when it has none. */
  function Basename(p: string): (name: string)
    ensures '/' !in name
    ensures |name| <= |p| && p[|p| - |name|..] == name
    ensures |name| < |p| ==> p[|p| - |name| - 1] == '/'
  {
    p[NameStart(p)..]
  }

  /** Whether os.path.join puts a '/' between `a` and a relative second component. */
  predicate NeedsSeparator(a: string)
  {
    a != "" && a[|a| - 1] != '/'
  }

  /** os.path.join of two components. */
  function Join(a: string, b: string): (r: string)
  {
    if |b| > 0 && b[0] == '/' then b
    else if a == "" || a[|a| - 1] == '/' then a + b
    else a + "/" + b
  }

  /**
   * An absolute `b` replaces `a`; otherwise the join is `a`, then one '/'
   * unless `a` is empty or already ends in one, then `b`.
   */
  lemma JoinParts(a: string, b: string)
    ensures |b| > 0 && b[0] == '/' ==> Join(a, b) == b
    ensures |b| == 0 || b[0] != '/' ==>
      var r := Join(a, b);
      && |a| + |b| <= |r|
      && r[..|a|] == a
      && r[|r| - |b|..] == b
      && r[|a|..|r| - |b|] == (if NeedsSeparator(a) then "/" else "")
  {
  }

  /** Joined with a name that has no '/', a directory is followed by the separator, if any, and then the name. */
  lemma JoinRelative(dir: string, name: string)
    requires '/' !in name
    ensures |dir| <= |Join(dir, name)| && Join(dir, name)[..|dir|] == dir
    ensures Join(dir, name)[|dir|..] == (if NeedsSeparator(dir) then "/" else "") + name
  {
    if |name| > 0 {
      assert name[0] in name;
    }
    var sep := if NeedsSeparator(dir) then "/" else "";
    assert Join(dir, name) == dir + (sep + name);
  }

  /** Joining a directory with a name that has no '/' and taking the basename gives back the name. */
  lemma BasenameOfJoin(dir: string, name: string)
    requires '/' !in name
    ensures Basename(Join(dir, name)) == name
  {
    var j := Join(dir, name);
    var prefix := j[..|j| - |name|];
    assert j == prefix + name;
    NameStartSkipsName(prefix, name);
    assert NameStart(prefix) == |prefix|;
  }

  /** A '/'-free tail does not move the start of the last name. */
  lemma {:induction false} NameStartSkipsName(prefix: string, name: string)
    requires '/' !in name
    ensures NameStart(prefix + name) == NameStart(prefix)
    decreases |name|
  {
    if name != [] {
      var init := name[..|name| - 1];
      assert (prefix + name)[..|prefix + name| - 1] == prefix + init;
      assert (prefix + name)[|prefix + name| - 1] == name[|name| - 1];
      NameStartSkipsName(prefix, init);
    } else {
      assert prefix + name == prefix;
    }
  }

  /** Joining one directory with two slash-free names gives equal paths exactly when the names are equal. */
  lemma JoinInjective(dir: string, n1: string, n2: string)
    requires '/' !in n1 && '/' !in n2
    ensures Join(dir, n1) == Join(dir, n2) <==> n1 == n2
  {
    if Join(dir, n1) == Join(dir, n2) {
      BasenameOfJoin(dir, n1);
      BasenameOfJoin(dir, n2);
    }
  }

  /** str.lower on one character; only the ASCII letters are modelled. */
  predicate IsUpper(c: char)
  {
    'A' <= c <= 'Z'
  }

  function LowerChar(c: char): char
  {
    if IsUpper(c) then (c as int - 'A' as int + 'a' as int) as char else c
  }

  /** str.lower */
  function Lower(s: string): (r: string)
    ensures |r| == |s|
    ensures forall i :: 0 <= i < |s| ==> r[i] == LowerChar(s[i])
    ensures forall i :: 0 <= i < |s| ==> !IsUpper(r[i])
  {
    seq(|s|, i requires 0 <= i < |s| => LowerChar(s[i]))
  }

  /** Lowering twice is lowering once. */
  lemma LowerIdempotent(s: string)
    ensures Lower(Lower(s)) == Lower(s)
  {
  }

  /** str.endswith with one suffix. */
  predicate EndsWith(s: string, suffix: string)
  {
    |suffix| <= |s| && s[|s| - |suffix|..] == suffix
  }

  /** A lowered string ends with no suffix that contains an upper-case letter. */
  lemma LoweredMissesUpper(s: string, suffix: string, k: nat)
    requires k < |suffix| && IsUpper(suffix[k])
    ensures !EndsWith(Lower(s), suffix)
  {
  }
}
