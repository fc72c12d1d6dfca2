/**
 * String helpers of `Lister`: `PathToFilename`, `HasInvalidFilenameChars`, and the pieces of
 * `string`/`Path` they rely on (`Trim`, `TrimEnd`, `Replace`, `IsNullOrWhiteSpace`, `Path.Combine`),
 * with Windows path separators.
 */
module Paths {

  /** The characters `char.IsWhiteSpace` accepts among Latin-1. */
  const WhiteSpace: set<char> := {' ', '\t', '\n', '\U{B}', '\U{C}', '\r', '\U{85}', '\U{A0}'}

  /** `Path.DirectorySeparatorChar` and `Path.AltDirectorySeparatorChar` on Windows. */
  const Separators: set<char> := {'\\', '/'}

  function TrimStart(s: string, cs: set<char>): string
  {
    if s != [] && s[0] in cs then TrimStart(s[1..], cs) else s
  }

  function TrimEnd(s: string, cs: set<char>): string
  {
    if s != [] && s[|s| - 1] in cs then TrimEnd(s[..|s| - 1], cs) else s
  }

  /** `string.Trim()`. */
  function Trim(s: string): string
  {
    TrimEnd(TrimStart(s, WhiteSpace), WhiteSpace)
  }

  /** `string.Replace` with a one-character pattern: every occurrence of `c` becomes `rep`. */
  function ReplaceChar(s: string, c: char, rep: string): string
  {
    if s == [] then []
    else (if s[0] == c then rep else [s[0]]) + ReplaceChar(s[1..], c, rep)
  }

  /** `string.IsNullOrWhiteSpace` (a `null` string is modelled as the empty one). */
  predicate IsNullOrWhiteSpace(s: string)
  {
    forall i :: 0 <= i < |s| ==> s[i] in WhiteSpace
  }

  /** `Path.IsPathRooted` on Windows. */
  predicate IsPathRooted(p: string)
  {
    (|p| >= 1 && p[0] in Separators) || (|p| >= 2 && p[1] == ':')
  }

  /** `Path.Combine(a, b)` on Windows. */
  function Combine(a: string, b: string): string
  {
    if b == [] then a
    else if a == [] || IsPathRooted(b) then b
    else if a[|a| - 1] in Separators || a[|a| - 1] == ':' then a + b
    else a + "\\" + b
  }

  const Suffix: string := ".txt"

  /** `PathToFilename`: trim, drop trailing separators, backslash to " - ", drop colons, add ".txt". */
  function PathToFilename(path: string): string
  {
    ReplaceChar(ReplaceChar(TrimEnd(Trim(path), Separators), '\\', " - "), ':', "") + Suffix
  }

  /** `String.IndexOfAny`: the first index of a character of `cs` in `s`, or -1. */
  function IndexOfAny(s: string, cs: set<char>): int
  {
    if s == [] then -1
    else if s[0] in cs then 0
    else var k := IndexOfAny(s[1..], cs); if k < 0 then -1 else k + 1
  }

  /** `HasInvalidFilenameChars`, with `Path.GetInvalidFileNameChars()` passed as `invalid`. */
  function HasInvalidFilenameChars(s: string, invalid: set<char>): bool
  {
    s != [] && IndexOfAny(s, invalid) >= 0
  }

  // ---------------------------------------------------------------------------
  // Properties

  lemma {:induction false} IndexOfAnySpec(s: string, cs: set<char>)
    ensures IndexOfAny(s, cs) >= 0 <==> exists i :: 0 <= i < |s| && s[i] in cs
  {
    if s != [] && s[0] !in cs {
      IndexOfAnySpec(s[1..], cs);
      if exists i :: 0 <= i < |s| && s[i] in cs {
        var i :| 0 <= i < |s| && s[i] in cs;
        assert s[1..][i - 1] in cs;
      }
    }
  }

  /** A listing name is refused exactly when one of its characters is invalid in a file name. */
  lemma HasInvalidFilenameCharsSpec(s: string, invalid: set<char>)
    ensures HasInvalidFilenameChars(s, invalid) <==> exists i :: 0 <= i < |s| && s[i] in invalid
  {
    IndexOfAnySpec(s, invalid);
  }

  lemma {:induction false} ReplaceCharRemoves(s: string, c: char, rep: string, d: char)
    requires d !in rep
    requires d == c || d !in s
    ensures d !in ReplaceChar(s, c, rep)
  {
    if s != [] {
      assert d !in s ==> d !in s[1..];
      ReplaceCharRemoves(s[1..], c, rep, d);
    }
  }

  lemma {:induction false} TrimEndLast(s: string, cs: set<char>)
    ensures TrimEnd(s, cs) == [] || TrimEnd(s, cs)[|TrimEnd(s, cs)| - 1] !in cs
  {
    if s != [] && s[|s| - 1] in cs {
      TrimEndLast(s[..|s| - 1], cs);
    }
  }

  /**
   * The file name for a directory ends in ".txt", and the part before the suffix holds
   * neither a colon nor a backslash.
   */
  lemma PathToFilenameShape(path: string)
    ensures |PathToFilename(path)| >= |Suffix|
    ensures PathToFilename(path)[|PathToFilename(path)| - |Suffix|..] == Suffix
    ensures forall i :: 0 <= i < |PathToFilename(path)| - |Suffix| ==>
      PathToFilename(path)[i] != ':' && PathToFilename(path)[i] != '\\'
  {
    var t := TrimEnd(Trim(path), Separators);
    var u := ReplaceChar(t, '\\', " - ");
    var stem := ReplaceChar(u, ':', "");
    ReplaceCharRemoves(t, '\\', " - ", '\\');
    ReplaceCharRemoves(u, ':', "", '\\');
    ReplaceCharRemoves(u, ':', "", ':');
    assert PathToFilename(path) == stem + Suffix;
    assert forall i :: 0 <= i < |stem| ==> stem[i] in stem;
  }

  lemma {:induction false} TrimEndAppended(s: string, t: string, cs: set<char>)
    requires forall i :: 0 <= i < |t| ==> t[i] in cs
    ensures TrimEnd(s + t, cs) == TrimEnd(s, cs)
    decreases |t|
  {
    if t != [] {
      assert (s + t)[..|s + t| - 1] == s + t[..|t| - 1];
      TrimEndAppended(s, t[..|t| - 1], cs);
    } else {
      assert s + t == s;
    }
  }

  /**
   * Trailing path separators do not change the file name: a path with separators appended
   * maps to the same name, provided the path does not itself end or start in white space.
   */
  lemma PathToFilenameIgnoresTrailingSeparators(path: string, seps: string)
    requires path == [] || (path[0] !in WhiteSpace && path[|path| - 1] !in WhiteSpace)
    requires forall i :: 0 <= i < |seps| ==> seps[i] in Separators
    ensures PathToFilename(path + seps) == PathToFilename(path)
  {
    var p := path + seps;
    if p != [] {
      assert p[0] !in WhiteSpace;
      assert p[|p| - 1] !in WhiteSpace;
    }
    assert TrimStart(p, WhiteSpace) == p;
    assert Trim(p) == p;
    assert TrimStart(path, WhiteSpace) == path;
    assert Trim(path) == path;
    TrimEndAppended(path, seps, Separators);
  }

  lemma {:induction false} ReplaceCharAppend(s: string, t: string, c: char, rep: string)
    ensures ReplaceChar(s + t, c, rep) == ReplaceChar(s, c, rep) + ReplaceChar(t, c, rep)
  {
    if s == [] {
      assert s + t == t;
    } else {
      assert (s + t)[1..] == s[1..] + t;
      ReplaceCharAppend(s[1..], t, c, rep);
    }
  }

  lemma {:induction false} ReplaceCharAbsent(s: string, c: char, rep: string)
    requires c !in s
    ensures ReplaceChar(s, c, rep) == s
  {
    if s != [] {
      assert c !in s[1..];
      ReplaceCharAbsent(s[1..], c, rep);
    }
  }

  /**
   * The flattening is not injective: `x\y` and `x - y` give the same file name, so two
   * different separated directories can be written to one data file.
   */
  lemma PathToFilenameCollision(x: string, y: string)
    requires x != [] && x[0] !in WhiteSpace && '\\' !in x
    requires y != [] && y[|y| - 1] !in WhiteSpace && y[|y| - 1] !in Separators && '\\' !in y
    ensures x + "\\" + y != x + " - " + y
    ensures PathToFilename(x + "\\" + y) == PathToFilename(x + " - " + y)
  {
    var p, q := x + "\\" + y, x + " - " + y;
    assert p[|x|] != q[|x|];
    assert p[0] == x[0] && q[0] == x[0];
    assert p[|p| - 1] == y[|y| - 1] && q[|q| - 1] == y[|y| - 1];
    assert Trim(p) == p && Trim(q) == q;
    assert TrimEnd(p, Separators) == p && TrimEnd(q, Separators) == q;
    ReplaceCharAppend(x + "\\", y, '\\', " - ");
    ReplaceCharAppend(x, "\\", '\\', " - ");
    ReplaceCharAppend(x + " - ", y, '\\', " - ");
    ReplaceCharAppend(x, " - ", '\\', " - ");
    ReplaceCharAbsent(x, '\\', " - ");
    ReplaceCharAbsent(y, '\\', " - ");
    ReplaceCharAbsent(" - ", '\\', " - ");
    assert ReplaceChar("\\", '\\', " - ") == " - ";
  }
}
