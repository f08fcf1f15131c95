/**
  The Python string operations the core uses: `str.strip()`, `str.split(sep)`
  and the POSIX `os.path.basename` and `os.path.join`.
 */
module PyText {

  /** The characters of Python's `str.isspace()`, which a bare `strip()` removes. */
  predicate IsSpace(c: char) {
    || c == ' '
    || '\t' <= c <= '\r'
    || '\U{1C}' <= c <= '\U{1F}'
    || c == '\U{85}' || c == '\U{A0}' || c == '\U{1680}'
    || '\U{2000}' <= c <= '\U{200A}'
    || c == '\U{2028}' || c == '\U{2029}' || c == '\U{202F}'
    || c == '\U{205F}' || c == '\U{3000}'
  }

  predicate AllSpace(s: string) {
    forall i :: 0 <= i < |s| ==> IsSpace(s[i])
  }

  /** Neither end of `s` is whitespace. */
  predicate Trimmed(s: string) {
    s == [] || (!IsSpace(s[0]) && !IsSpace(s[|s| - 1]))
  }

  /** `s.lstrip()`: the suffix left after dropping leading whitespace. */
  function TrimStart(s: string): (r: string)
    ensures |r| <= |s| && r == s[|s| - |r|..]
    ensures r == [] || !IsSpace(r[0])
  {
    if |s| > 0 && IsSpace(s[0]) then TrimStart(s[1..]) else s
  }

  /** `s.rstrip()`: the prefix left after dropping trailing whitespace. */
  function TrimEnd(s: string): (r: string)
    ensures |r| <= |s| && r == s[..|r|]
    ensures r == [] || !IsSpace(r[|r| - 1])
  {
    if |s| > 0 && IsSpace(s[|s| - 1]) then TrimEnd(s[..|s| - 1]) else s
  }

  /** `s.strip()`. */
  function Strip(s: string): (r: string)
    ensures Trimmed(r)
    ensures |r| <= |s|
  {
    var t := TrimStart(s);
    var r := TrimEnd(t);
    assert r != [] ==> r[0] == t[0];
    r
  }

  /** `strip` keeps one contiguous piece of `s`: the piece that follows the leading whitespace. */
  lemma StripKeepsInfix(s: string)
    ensures var k := |s| - |TrimStart(s)|;
            && k + |Strip(s)| <= |s|
            && s[k..k + |Strip(s)|] == Strip(s)
  {
    var t := TrimStart(s);
    var k := |s| - |t|;
    var r := TrimEnd(t);
    assert r == Strip(s);
    assert t == s[k..];
    assert r == t[..|r|];
  }

  /** `lstrip` drops whitespace only. */
  lemma {:induction false} TrimStartRemovesSpace(s: string)
    ensures AllSpace(s[..|s| - |TrimStart(s)|])
  {
    if |s| > 0 && IsSpace(s[0]) {
      TrimStartRemovesSpace(s[1..]);
      var n := |s| - |TrimStart(s)|;
      forall i | 0 <= i < n ensures IsSpace(s[..n][i]) {
        if i > 0 { assert s[..n][i] == s[1..][..n - 1][i - 1]; }
      }
    }
  }

  /** `rstrip` drops whitespace only. */
  lemma {:induction false} TrimEndRemovesSpace(s: string)
    ensures AllSpace(s[|TrimEnd(s)|..])
  {
    if |s| > 0 && IsSpace(s[|s| - 1]) {
      var m := |s| - 1;
      TrimEndRemovesSpace(s[..m]);
      var k := |TrimEnd(s)|;
      forall i | 0 <= i < |s| - k ensures IsSpace(s[k..][i]) {
        if k + i < m { assert s[k..][i] == s[..m][k..][i]; }
      }
    }
  }

  /** What `strip` removes around that piece is whitespace only. */
  lemma StripRemovesOnlySpace(s: string)
    ensures var k := |s| - |TrimStart(s)|;
            && k + |Strip(s)| <= |s|
            && AllSpace(s[..k])
            && AllSpace(s[k + |Strip(s)|..])
  {
    var t := TrimStart(s);
    var k := |s| - |t|;
    var r := TrimEnd(t);
    assert r == Strip(s);
    TrimStartRemovesSpace(s);
    TrimEndRemovesSpace(t);
    DropDrop(s, k, |r|);
  }

  lemma DropDrop(s: string, k: nat, j: nat)
    requires k + j <= |s|
    ensures s[k..][j..] == s[k + j..]
  {
  }

  lemma {:induction false} TrimStartOfPadded(pre: string, t: string)
    requires AllSpace(pre)
    requires t == [] || !IsSpace(t[0])
    ensures TrimStart(pre + t) == t
  {
    if pre != [] {
      assert (pre + t)[1..] == pre[1..] + t;
      TrimStartOfPadded(pre[1..], t);
    }
  }

  lemma {:induction false} TrimEndOfPadded(t: string, post: string)
    requires AllSpace(post)
    requires t == [] || !IsSpace(t[|t| - 1])
    ensures TrimEnd(t + post) == t
  {
    if post != [] {
      var n := |post| - 1;
      assert (t + post)[..|t + post| - 1] == t + post[..n];
      TrimEndOfPadded(t, post[..n]);
    }
  }

  /**
    The converse of StripKeepsInfix and StripRemovesOnlySpace: whatever whitespace surrounds a trimmed
    text, `strip` returns exactly that text.
   */
  lemma StripOfPadded(pre: string, core: string, post: string)
    requires AllSpace(pre) && AllSpace(post) && Trimmed(core)
    ensures Strip(pre + core + post) == core
  {
    if core == [] {
      assert pre + core + post == (pre + post) + [];
      TrimStartOfPadded(pre + post, []);
    } else {
      assert pre + core + post == pre + (core + post);
      TrimStartOfPadded(pre, core + post);
      TrimEndOfPadded(core, post);
    }
  }

  /** Stripping twice is stripping once. */
  lemma StripIdempotent(s: string)
    ensures Strip(Strip(s)) == Strip(s)
  {
    StripOfPadded([], Strip(s), []);
    assert [] + Strip(s) + [] == Strip(s);
  }

  /** `s.split(sep)`: the pieces between occurrences of `sep`, empty pieces included. */
  function Split(s: string, sep: char): (parts: seq<string>)
    ensures |parts| >= 1
    ensures forall i :: 0 <= i < |parts| ==> sep !in parts[i]
    ensures |parts| == 1 <==> sep !in s
  {
    if s == [] then [[]]
    else
      var rest := Split(s[1..], sep);
      if s[0] == sep then [[]] + rest
      else [[s[0]] + rest[0]] + rest[1..]
  }

  /** `sep.join(parts)`. */
  function Join(parts: seq<string>, sep: char): string
    requires |parts| >= 1
  {
    if |parts| == 1 then parts[0] else parts[0] + [sep] + Join(parts[1..], sep)
  }

  /** Joining the pieces of a split gives back the string. */
  lemma {:induction false} JoinSplit(s: string, sep: char)
    ensures Join(Split(s, sep), sep) == s
  {
    if s != [] {
      var rest := Split(s[1..], sep);
      JoinSplit(s[1..], sep);
      if s[0] == sep {
        assert Split(s, sep)[1..] == rest;
      } else if |rest| == 1 {
        assert Join(Split(s, sep), sep) == [s[0]] + rest[0];
      } else {
        var parts := Split(s, sep);
        assert parts[1..] == rest[1..];
        assert Join(rest, sep) == rest[0] + [sep] + Join(rest[1..], sep);
      }
    }
  }

  lemma {:induction false} SplitPrefix(p: string, sep: char, t: string)
    requires sep !in p
    ensures Split(p + [sep] + t, sep) == [p] + Split(t, sep)
  {
    if p == [] {
      assert (p + [sep] + t)[1..] == t;
    } else {
      assert (p + [sep] + t)[1..] == p[1..] + [sep] + t;
      SplitPrefix(p[1..], sep, t);
      var rest := Split(p[1..] + [sep] + t, sep);
      assert rest[0] == p[1..] && rest[1..] == Split(t, sep);
      assert [p[0]] + p[1..] == p;
    }
  }

  /** Splitting a join of separator-free pieces gives back the pieces. */
  lemma {:induction false} SplitJoin(parts: seq<string>, sep: char)
    requires |parts| >= 1
    requires forall i :: 0 <= i < |parts| ==> sep !in parts[i]
    ensures Split(Join(parts, sep), sep) == parts
  {
    if |parts| == 1 {
      var p := parts[0];
      assert Split(p, sep) == [Split(p, sep)[0]];
      JoinSplit(p, sep);
    } else {
      SplitJoin(parts[1..], sep);
      SplitPrefix(parts[0], sep, Join(parts[1..], sep));
      assert parts == [parts[0]] + parts[1..];
    }
  }

  /**
    POSIX `os.path.basename(p)`: the longest suffix of `p` without a `/`.
    The three postconditions determine it (BasenameUnique).
   */
  function Basename(p: string): (r: string)
    ensures |r| <= |p| && r == p[|p| - |r|..]
    ensures '/' !in r
    ensures |r| < |p| ==> p[|p| - |r| - 1] == '/'
  {
    if p == [] || p[|p| - 1] == '/' then []
    else Basename(p[..|p| - 1]) + [p[|p| - 1]]
  }

  lemma BasenameUnique(p: string, r: string)
    requires |r| <= |p| && r == p[|p| - |r|..]
    requires '/' !in r
    requires |r| < |p| ==> p[|p| - |r| - 1] == '/'
    ensures r == Basename(p)
  {
    var b := Basename(p);
    assert |r| == |b|;
  }

  /** The last piece of a split is a separator-free suffix preceded by the separator. */
  lemma {:induction false} LastPieceIsTail(s: string, sep: char)
    ensures var parts := Split(s, sep);
            var l := parts[|parts| - 1];
            && |l| <= |s| && l == s[|s| - |l|..]
            && (|l| < |s| ==> s[|s| - |l| - 1] == sep)
  {
    if s != [] {
      var rest := Split(s[1..], sep);
      LastPieceIsTail(s[1..], sep);
      var l' := rest[|rest| - 1];
      assert sep !in l';
    }
  }

  /** `p.split('/')[-1]` is `os.path.basename(p)`. */
  lemma LastSplitIsBasename(p: string)
    ensures var parts := Split(p, '/'); parts[|parts| - 1] == Basename(p)
  {
    LastPieceIsTail(p, '/');
    var parts := Split(p, '/');
    BasenameUnique(p, parts[|parts| - 1]);
  }

  /** POSIX `os.path.join(a, b)`. */
  function PathJoin(a: string, b: string): string {
    if |b| > 0 && b[0] == '/' then b
    else if a == [] || a[|a| - 1] == '/' then a + b
    else a + "/" + b
  }

  /** A `/`-free name right after a `/` is the base name. */
  lemma BasenameAfterSlash(prefix: string, name: string)
    requires |prefix| > 0 && prefix[|prefix| - 1] == '/'
    requires '/' !in name
    ensures Basename(prefix + name) == name
  {
    var p := prefix + name;
    assert p[|p| - |name|..] == name;
    assert p[|p| - |name| - 1] == '/';
    BasenameUnique(p, name);
  }

  /** Joining a file name onto a directory keeps it as the base name. */
  lemma BasenameOfJoin(dir: string, name: string)
    requires '/' !in name
    ensures Basename(PathJoin(dir, name)) == name
  {
    var p := PathJoin(dir, name);
    if name != [] {
      assert name[0] in name;
    }
    BasenameUnique(p, name);
  }
}
