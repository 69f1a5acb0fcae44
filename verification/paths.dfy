/** The POSIX path helpers of Python's `os.path` that the program uses on
    file names: `basename`, `dirname`, `splitext` and `join`. */
module Paths {
  import opened Text

  /** `s.rfind(c)`: the last index of `c`, or -1. */
  function RFind(s: string, c: char): (r: int)
    ensures -1 <= r < |s|
    ensures r == -1 ==> NoChar(s, c)
    ensures r >= 0 ==> s[r] == c
    ensures forall j :: r < j < |s| ==> s[j] != c
  {
    if s == [] then -1
    else if s[|s| - 1] == c then |s| - 1
    else
      var t := s[..|s| - 1];
      var r := RFind(t, c);
      assert forall j :: r < j < |t| ==> s[j] == t[j];
      r
  }

  /** Appending text without `c` does not move the last `c`. */
  lemma {:induction false} RFindAppendWithout(s: string, t: string, c: char)
    requires NoChar(t, c)
    ensures RFind(s + t, c) == RFind(s, c)
    decreases |t|
  {
    if t == [] {
      assert s + t == s;
    } else {
      var u := s + t;
      assert u[..|u| - 1] == s + t[..|t| - 1];
      RFindAppendWithout(s, t[..|t| - 1], c);
    }
  }

  /** The last `c` of `s + [c] + t` is the appended one when `t` has none. */
  lemma RFindAppendWith(s: string, t: string, c: char)
    requires NoChar(t, c)
    ensures RFind(s + [c] + t, c) == |s|
  {
    RFindAppendWithout(s + [c], t, c);
    assert (s + [c]) + t == s + [c] + t;
  }

  /** `os.path.basename`: everything after the last slash. */
  function BaseName(p: string): (b: string)
    ensures NoChar(b, '/') && EndsWith(p, b)
  {
    p[RFind(p, '/') + 1..]
  }

  /** `os.path.dirname`: everything up to the last slash, with trailing slashes
      removed unless the head consists of slashes only. */
  function DirName(p: string): (d: string)
    ensures StartsWith(p, d) && |d| + |BaseName(p)| <= |p|
    ensures d == [] <==> NoChar(p, '/')
    ensures AllChar(p[|d|..|p| - |BaseName(p)|], '/')
    ensures d != [] && !AllChar(d, '/') ==> d[|d| - 1] != '/'
    ensures d != [] && AllChar(d, '/') ==> |d| + |BaseName(p)| == |p|
  {
    var k := RFind(p, '/');
    var head := p[..k + 1];
    assert |BaseName(p)| == |p| - (k + 1);
    if head != [] && !AllChar(head, '/') then
      var d := RStrip(head, '/');
      assert forall i :: |d| <= i < k + 1 ==> p[i] == head[|d|..][i - |d|];
      d
    else head
  }

  predicate AllChar(s: string, c: char) {
    forall i :: 0 <= i < |s| ==> s[i] == c
  }

  /** `s.rstrip(c)`. */
  function RStrip(s: string, c: char): (r: string)
    ensures StartsWith(s, r) && (r == [] || r[|r| - 1] != c)
    ensures AllChar(s[|r|..], c)
  {
    if s != [] && s[|s| - 1] == c then
      var t := s[..|s| - 1];
      var r := RStrip(t, c);
      assert forall i :: |r| <= i < |t| ==> s[i] == t[|r|..][i - |r|];
      r
    else s
  }

  predicate HasNonDot(s: string) {
    exists i :: 0 <= i < |s| && s[i] != '.'
  }

  /** `os.path.splitext`: the extension is the text from the last dot of the
      file name on, provided the name has some other character before that dot
      (so ".bashrc" has no extension). */
  function SplitExt(p: string): (parts: (string, string))
    ensures parts.0 + parts.1 == p
    ensures parts.1 == [] || IsExtension(parts.1)
    ensures parts.1 != [] <==> HasExtensionDot(BaseName(p))
  {
    var sep, dot := RFind(p, '/'), RFind(p, '.');
    if dot > sep && HasNonDot(p[sep + 1..dot]) then
      ExtensionSuffix(p, sep, dot);
      ExtensionDotFound(p, sep, dot);
      (p[..dot], p[dot..])
    else
      NoExtensionDot(p, sep, dot);
      assert p + "" == p;
      (p, "")
  }

  /** A file name has an extension when one of its dots follows a character
      other than a dot. */
  predicate HasExtensionDot(name: string) {
    exists j, i :: 0 <= j < i < |name| && name[j] != '.' && name[i] == '.'
  }

  /** When the last dot follows the last slash and a non-dot precedes it in
      the file name, that dot makes the file name's extension. */
  lemma ExtensionDotFound(p: string, sep: int, dot: int)
    requires sep == RFind(p, '/') && dot == RFind(p, '.') && sep < dot
    requires HasNonDot(p[sep + 1..dot])
    ensures HasExtensionDot(BaseName(p))
  {
    var b := BaseName(p);
    var m := p[sep + 1..dot];
    var k :| 0 <= k < |m| && m[k] != '.';
    assert b == p[sep + 1..] && m[k] == p[sep + 1 + k];
    assert b[k] == p[sep + 1 + k] && b[dot - sep - 1] == p[dot];
  }

  /** When the last dot does not follow the last slash, or only dots precede
      it in the file name, no dot of the file name follows a non-dot. */
  lemma NoExtensionDot(p: string, sep: int, dot: int)
    requires sep == RFind(p, '/') && dot == RFind(p, '.')
    requires !(dot > sep && HasNonDot(p[sep + 1..dot]))
    ensures !HasExtensionDot(BaseName(p))
  {
    var b := BaseName(p);
    forall j, i | 0 <= j < i < |b| && b[i] == '.'
      ensures b[j] == '.'
    {
      assert b[i] == p[sep + 1 + i];
      assert sep + 1 + i <= dot;
      assert b[j] == p[sep + 1..dot][j];
    }
  }

  /** A hidden file such as ".bashrc", a dot followed by text without dots,
      has no extension. */
  lemma SplitExtDotFile(name: string)
    requires |name| >= 1 && name[0] == '.' && NoChar(name[1..], '.') && NoChar(name, '/')
    ensures SplitExt(name) == (name, "")
  {
    RFindNoSlash(name);
    assert BaseName(name) == name;
    forall i | 0 < i < |name|
      ensures name[i] != '.'
    {
      assert name[i] == name[1..][i - 1];
    }
  }

  /** The text from the last dot on, when that dot follows the last slash,
      is an extension, and the text before it completes the path. */
  lemma ExtensionSuffix(p: string, sep: int, dot: int)
    requires sep == RFind(p, '/') && dot == RFind(p, '.') && sep < dot
    ensures IsExtension(p[dot..]) && p[..dot] + p[dot..] == p
  {
    var e := p[dot..];
    assert forall i :: 0 <= i < |e| ==> e[i] == p[dot + i];
    assert forall i :: 0 <= i < |e[1..]| ==> e[1..][i] == p[dot + 1 + i];
    assert p[..dot] + e == p;
  }

  /** A path without dots has no extension. */
  lemma SplitExtNoDot(p: string)
    requires NoChar(p, '.')
    ensures SplitExt(p) == (p, "")
  {
    assert RFind(p, '.') == -1;
  }

  /** A hidden file such as ".bashrc" inside a directory has no extension. */
  lemma SplitExtHiddenIn(d: string, name: string)
    requires d != [] && d[|d| - 1] == '/'
    requires |name| >= 1 && name[0] == '.' && NoChar(name[1..], '.') && NoChar(name, '/')
    ensures SplitExt(d + name) == (d + name, "")
  {
    var p := d + name;
    assert d == d[..|d| - 1] + ['/'];
    assert p == d[..|d| - 1] + ['/'] + name;
    RFindAppendWith(d[..|d| - 1], name, '/');
    assert BaseName(p) == name;
    forall i | 0 < i < |name|
      ensures name[i] != '.'
    {
      assert name[i] == name[1..][i - 1];
    }
  }

  /** A file extension: a dot followed by text without dots or slashes. */
  predicate IsExtension(e: string) {
    |e| >= 1 && e[0] == '.' && NoChar(e[1..], '.') && NoChar(e, '/')
  }

  /** Putting an extension on a root whose file name has a non-dot character
      and splitting again gives the root and the extension back. */
  lemma SplitExtOfJoin(root: string, e: string)
    requires IsExtension(e) && HasNonDot(BaseName(root))
    ensures SplitExt(root + e) == (root, e)
  {
    var p := root + e;
    DotOfJoin(root, e);
    assert NoChar(e, '/');
    RFindAppendWithout(root, e, '/');
    var sep := RFind(root, '/');
    assert p[sep + 1..|root|] == BaseName(root);
    assert p[..|root|] == root && p[|root|..] == e;
  }

  /** The last dot of a path ending in an extension is the extension's dot. */
  lemma DotOfJoin(root: string, e: string)
    requires IsExtension(e)
    ensures RFind(root + e, '.') == |root|
  {
    assert e == ['.'] + e[1..];
    assert root + e == root + ['.'] + e[1..];
    RFindAppendWith(root, e[1..], '.');
  }

  /** `os.path.join(d, name)` for a relative `name`. */
  function JoinPath(d: string, name: string): (r: string)
    ensures StartsWith(r, d) && EndsWith(r, name)
    ensures |r| == |d| + |name| || (|r| == |d| + 1 + |name| && r[|d|] == '/')
    ensures d != [] && d[|d| - 1] != '/' ==> |r| == |d| + 1 + |name|
  {
    if d == [] || d[|d| - 1] == '/' then d + name else d + "/" + name
  }

  /** The file name of `os.path.join(d, name)` is `name`. */
  lemma BaseNameOfJoin(d: string, name: string)
    requires NoChar(name, '/')
    ensures BaseName(JoinPath(d, name)) == name
  {
    if d == [] {
      RFindNoSlash(name);
    } else if d[|d| - 1] == '/' {
      assert d == d[..|d| - 1] + ['/'];
      assert d + name == d[..|d| - 1] + ['/'] + name;
      RFindAppendWith(d[..|d| - 1], name, '/');
    } else {
      assert d + "/" + name == d + ['/'] + name;
      RFindAppendWith(d, name, '/');
    }
  }

  /** The directory of `os.path.join(d, name)` is `d` again, for a file name
      without "/" and a directory without a trailing slash. */
  lemma DirNameOfJoin(d: string, name: string)
    requires NoChar(name, '/') && (d == [] || d[|d| - 1] != '/')
    ensures DirName(JoinPath(d, name)) == d
  {
    if d == [] {
      RFindNoSlash(name);
    } else {
      var p := d + "/" + name;
      assert p == d + ['/'] + name;
      RFindAppendWith(d, name, '/');
      assert p[..|d| + 1] == d + ['/'];
      assert (d + ['/'])[|d| - 1] == d[|d| - 1] != '/';
      assert (d + ['/'])[..|d|] == d;
    }
  }

  /** A name without slashes has no slash to find. */
  lemma RFindNoSlash(b: string)
    requires NoChar(b, '/')
    ensures RFind(b, '/') == -1
  {
    RFindAppendWithout([], b, '/');
    assert [] + b == b;
  }

  /** `PurePath.suffix` of a file name: from the last dot on, unless that dot
      is the first or the last character. */
  function Suffix(name: string): (s: string)
    ensures s == [] || (s[0] == '.' && EndsWith(name, s) && |s| >= 2 && |s| < |name|)
    ensures s != [] ==> NoChar(s[1..], '.')
    ensures NoChar(name, '.') || EndsWith(name, ".") ==> s == []
    ensures |name| >= 1 && name[0] == '.' && NoChar(name[1..], '.') ==> s == []
  {
    var i := RFind(name, '.');
    if 0 < i < |name| - 1 then name[i..] else []
  }

  /** A file name made of a non-empty stem and a dot-led extension of at
      least two characters has that extension as its suffix. */
  lemma SuffixOfJoin(stem: string, e: string)
    requires stem != [] && IsExtension(e) && |e| >= 2
    ensures Suffix(stem + e) == e
  {
    DotOfJoin(stem, e);
    assert (stem + e)[|stem|..] == e;
  }

  /** `PurePath.stem`: the file name without its suffix. */
  function Stem(name: string): (s: string)
    ensures s + Suffix(name) == name
  {
    var i := RFind(name, '.');
    if 0 < i < |name| - 1 then name[..i] else name
  }
}
