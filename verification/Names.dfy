/**
 File names of at most DIRSIZ bytes and paths made of them (kernel/string.c, strncmp and
 strncpy; kernel/fs.c, namecmp and skipelem).
 */
module Names {
  import opened Common

  /** The string in a C buffer of which n characters may be read: up to a NUL, if there is one. */
  function CString(s: seq<char>, n: nat): (r: string)
    ensures |r| <= n && |r| <= |s| && NUL !in r
    ensures r == s[..|r|] && (|r| < n && |r| < |s| ==> s[|r|] == NUL)
  {
    if n == 0 || s == [] || s[0] == NUL then "" else [s[0]] + CString(s[1..], n - 1)
  }

  /** The buffer has n characters, or a NUL before it ends. */
  predicate Readable(s: seq<char>, n: nat) {
    n <= |s| || NUL in s
  }

  lemma {:induction false} CStringIs(s: seq<char>, n: nat, k: nat)
    requires k <= n && k <= |s| && NUL !in s[..k] && (k == n || k == |s| || s[k] == NUL)
    ensures CString(s, n) == s[..k]
    decreases k
  {
    if k > 0 {
      assert s[..k] == [s[0]] + s[1..][..k - 1];
      CStringIs(s[1..], n - 1, k - 1);
    }
  }

  /** The first place, among n, where two buffers differ. */
  predicate DiffersAt(p: seq<char>, q: seq<char>, n: nat, i: nat) {
    i < n && i < |p| && i < |q| && p[..i] == q[..i] && NUL !in p[..i] && p[i] != q[i]
  }

  /** strncmp is 0 exactly for the same string, as far as n characters go; its sign is that of the first difference. */
  method Strncmp(p: seq<char>, q: seq<char>, n: nat) returns (r: int)
    requires Readable(p, n) && Readable(q, n)
    ensures r == 0 <==> CString(p, n) == CString(q, n)
    ensures r != 0 ==> exists i: nat :: DiffersAt(p, q, n, i) && r == p[i] as int - q[i] as int
  {
    var i := 0;
    while i < n && p[i] != NUL && p[i] == q[i]
      invariant 0 <= i <= n && i <= |p| && i <= |q|
      invariant p[..i] == q[..i] && NUL !in p[..i]
      invariant i < n ==> i < |p| && i < |q|
      decreases n - i
    {
      assert p[..i + 1] == p[..i] + [p[i]] && q[..i + 1] == q[..i] + [q[i]];
      i := i + 1;
      InReach(p, n, i);
      InReach(q, n, i);
    }
    if i == n {
      CStringIs(p, n, i);
      CStringIs(q, n, i);
      return 0;
    }
    if p[i] == q[i] {
      CStringIs(p, n, i);
      CStringIs(q, n, i);
    } else {
      Differ(p, q, n, i);
      assert DiffersAt(p, q, n, i);
    }
    r := p[i] as int - q[i] as int;
  }

  lemma InReach(s: seq<char>, n: nat, i: nat)
    requires Readable(s, n) && i <= |s| && NUL !in s[..i]
    ensures i < n ==> i < |s|
  {
    if i == |s| {
      assert s[..i] == s;
    }
  }

  lemma Differ(p: seq<char>, q: seq<char>, n: nat, i: nat)
    requires i < n && i < |p| && i < |q| && p[..i] == q[..i] && NUL !in p[..i] && p[i] != q[i]
    ensures CString(p, n) != CString(q, n)
  {
    var a, b := CString(p, n), CString(q, n);
    assert forall k :: 0 <= k < i ==> p[..i][k] == p[k] && q[..i][k] == q[k];
    assert |a| >= i && |b| >= i;
    if |a| > i && |b| > i {
      assert a[i] == p[i] && b[i] == q[i];
    }
  }

  /** strncpy into a buffer of n: the same string, and NULs behind it. */
  method Strncpy(t: seq<char>, n: nat) returns (s: seq<char>)
    requires Readable(t, n)
    ensures |s| == n && CString(s, n) == CString(t, n)
    ensures forall k :: |CString(t, n)| <= k < n ==> s[k] == NUL
  {
    s := [];
    var i := 0;
    while i < n && t[i] != NUL
      invariant 0 <= i <= n && i <= |t| && s == t[..i] && NUL !in t[..i]
      invariant i < n ==> i < |t|
      decreases n - i
    {
      assert t[..i + 1] == t[..i] + [t[i]];
      s := s + [t[i]];
      i := i + 1;
      InReach(t, n, i);
    }
    ghost var k := i;
    CStringIs(t, n, k);
    while i < n
      invariant k <= i <= n && |s| == i && s[..k] == t[..k]
      invariant forall j :: k <= j < i ==> s[j] == NUL
    {
      s := s + [NUL];
      i := i + 1;
    }
    CStringIs(s, n, k);
  }

  // ---------------------------------------------------------------------------------- paths

  function SkipSlashes(path: string): (r: string)
    ensures |r| <= |path| && (r != "" ==> r[0] != '/')
  {
    if path != "" && path[0] == '/' then SkipSlashes(path[1..]) else path
  }

  function Element(path: string): (r: string)
    ensures |r| <= |path| && r == path[..|r|] && '/' !in r && (|r| < |path| ==> path[|r|] == '/')
  {
    if path == "" || path[0] == '/' then "" else [path[0]] + Element(path[1..])
  }

  /** A path element as directories know it. */
  function Cut(name: string): (r: string)
    ensures |r| <= DIRSIZ && |r| <= |name| && r == name[..|r|] && (|r| < DIRSIZ ==> |r| == |name|)
  {
    if |name| > DIRSIZ then name[..DIRSIZ] else name
  }

  /** The names between the slashes, each cut to DIRSIZ. */
  function Elements(path: string): seq<string>
    decreases |path|
  {
    var p := SkipSlashes(path);
    if p == "" then [] else [Cut(Element(p))] + Elements(p[|Element(p)|..])
  }

  lemma ElementsSkip(path: string)
    ensures Elements(SkipSlashes(path)) == Elements(path)
  {
  }

  /** Past the slashes at s. */
  method PastSlashes(path: string, s: nat) returns (e: nat)
    requires s <= |path|
    ensures s <= e <= |path| && path[e..] == SkipSlashes(path[s..])
  {
    e := s;
    while e < |path| && path[e] == '/'
      invariant s <= e <= |path| && SkipSlashes(path[e..]) == SkipSlashes(path[s..])
    {
      assert path[e..][1..] == path[e + 1..];
      e := e + 1;
    }
  }

  /** Past the element at s. */
  method PastElement(path: string, s: nat) returns (e: nat)
    requires s <= |path|
    ensures s <= e <= |path| && path[s..e] == Element(path[s..])
  {
    e := s;
    while e < |path| && path[e] != '/'
      invariant s <= e <= |path| && forall j :: s <= j < e ==> path[j] != '/'
    {
      e := e + 1;
    }
    ElementIs(path[s..], e - s);
    assert path[s..][..e - s] == path[s..e];
  }

  lemma {:induction false} ElementIs(p: string, k: nat)
    requires k <= |p| && (forall j :: 0 <= j < k ==> p[j] != '/') && (k == |p| || p[k] == '/')
    ensures Element(p) == p[..k]
    decreases k
  {
    if k > 0 {
      assert p[..k] == [p[0]] + p[1..][..k - 1];
      ElementIs(p[1..], k - 1);
    }
  }

  /** skipelem: the first element, and the path behind it and the slashes that follow. */
  method Skipelem(path: string) returns (found: bool, name: string, rest: string)
    ensures found <==> Elements(path) != []
    ensures found ==> Elements(path) == [name] + Elements(rest) && |rest| < |path|
    ensures found ==> (rest == "" <==> Elements(rest) == [])
    ensures found ==> rest == path[|path| - |rest|..]
  {
    hide SkipSlashes, Element;
    assert path[0..] == path;
    var s := PastSlashes(path, 0);
    if s == |path| {
      return false, "", "";
    }
    var e := PastElement(path, s);
    SkipEnds(path);
    NotEmpty(path[s..]);
    name := if e - s >= DIRSIZ then path[s..s + DIRSIZ] else path[s..e];
    assert name == Cut(path[s..e]);
    assert path[s..][e - s..] == path[e..];
    ElementsSkip(path[e..]);
    SkipEnds(path[e..]);
    e := PastSlashes(path, e);
    found, rest := true, path[e..];
  }

  lemma SkipEnds(path: string)
    ensures SkipSlashes(path) == "" || SkipSlashes(path)[0] != '/'
    ensures SkipSlashes(path) == "" <==> Elements(SkipSlashes(path)) == []
  {
  }

  lemma NotEmpty(path: string)
    requires path != "" && path[0] != '/'
    ensures Element(path) != ""
  {
  }
}
