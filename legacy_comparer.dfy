/**
 * The legacy directory-name ordering (`LegacyStringComparer`): strings are compared
 * character by character after lower-casing; two differing characters that both occur
 * in a fixed priority table are ordered by table position, any other pair by their
 * Unicode scalar values; when one string is a prefix of the other the shorter one comes first.
 * A Dafny `char` is a scalar value, where a .NET `char` is a UTF-16 code unit.
 */
module LegacyComparer {

  /** The priority table `_charOrder`, in source order. Upper-case letters are absent. */
  const CharOrder: seq<char> :=
    [' ', '!', '"', '#', '$', '%', '&', '\'', '(', ')', '*', '+', ',', '-', '.', '/',
     ':', '<', '=', '>', '?', '@',
     '\\', ']', '^', '`',
     '0', '1', '2', '3', '4', '5', '6', '7', '8', '9',
     ';',
     'a', 'b', 'c', 'd', 'e', 'f', 'g', 'h', 'i', 'j', 'k', 'l', 'm', 'n', 'o', 'p', 'q', 'r', 's', 't', 'u', 'v', 'w', 'x', 'y', 'z',
     '[', '_',
     '{', '|', '}', '~']

  /**
   * `char.ToLower`, restricted to the ASCII letters. No result is an upper-case letter, and
   * every ASCII letter lands in the table, so letters are always ordered by table position even
   * though the table holds no upper-case letter.
   */
  function Lower(c: char): (r: char)
    ensures !('A' <= r <= 'Z')
    ensures ('A' <= c <= 'Z' || 'a' <= c <= 'z') ==> r in CharOrder
  {
    if 'A' <= c <= 'Z' then (c as int + 32) as char else c
  }

  /** Lower-casing twice is lower-casing once. */
  lemma LowerIdempotent(c: char)
    ensures Lower(Lower(c)) == Lower(c)
  {
  }

  /** `Array.IndexOf(_charOrder, c)` searching from position `i`: the first position of `c`, or -1. */
  function PositionFrom(c: char, i: nat): int
    requires i <= |CharOrder|
    decreases |CharOrder| - i
  {
    if i == |CharOrder| then -1
    else if CharOrder[i] == c then i
    else PositionFrom(c, i + 1)
  }

  /** The table position of `c`, or -1 when `c` is not in the table. */
  function Position(c: char): int
  {
    PositionFrom(c, 0)
  }

  lemma {:induction false} PositionFromSpec(c: char, i: nat)
    requires i <= |CharOrder|
    ensures PositionFrom(c, i) == -1 || i <= PositionFrom(c, i) < |CharOrder|
    ensures PositionFrom(c, i) >= 0 ==> CharOrder[PositionFrom(c, i)] == c
    ensures PositionFrom(c, i) >= 0 ==> forall j :: i <= j < PositionFrom(c, i) ==> CharOrder[j] != c
    ensures PositionFrom(c, i) < 0 ==> forall j :: i <= j < |CharOrder| ==> CharOrder[j] != c
    decreases |CharOrder| - i
  {
    if i < |CharOrder| && CharOrder[i] != c {
      PositionFromSpec(c, i + 1);
    }
  }

  /** `Position` finds the first occurrence in the table, and fails exactly for characters not in it. */
  lemma PositionSpec(c: char)
    ensures -1 <= Position(c) < |CharOrder|
    ensures Position(c) >= 0 ==> CharOrder[Position(c)] == c && forall j :: 0 <= j < Position(c) ==> CharOrder[j] != c
    ensures Position(c) < 0 <==> c !in CharOrder
  {
    PositionFromSpec(c, 0);
  }

  /** `CompareChars`: zero for equal lower-cased characters, otherwise table order or scalar-value order. */
  function CompareChars(x: char, y: char): int
  {
    var a, b := Lower(x), Lower(y);
    if a == b then 0
    else
      var ia, ib := Position(a), Position(b);
      if ia >= 0 && ib >= 0 then (if ia < ib then -1 else 1)
      else a as int - b as int   // `char.CompareTo` returns the difference of the two values
  }

  /** The loop of `Compare` from index `i` on: the first non-zero character comparison, else the length rule. */
  function CompareFrom(a: string, b: string, i: nat): int
    requires i <= |a| && i <= |b|
    decreases |a| - i
  {
    if i == |a| || i == |b| then
      (if |a| == |b| then 0 else if |a| < |b| then -1 else 1)
    else if CompareChars(a[i], b[i]) != 0 then CompareChars(a[i], b[i])
    else CompareFrom(a, b, i + 1)
  }

  /** The value `LegacyStringComparer.Compare(a, b)` returns. */
  function LegacyCompare(a: string, b: string): int
  {
    CompareFrom(a, b, 0)
  }

  /** `LegacyStringComparer.Compare`: the early-exit loop over the common prefix. */
  method Compare(a: string, b: string) returns (r: int)
    ensures r == LegacyCompare(a, b)
  {
    var len := if |a| < |b| then |a| else |b|;
    for i := 0 to len
      invariant CompareFrom(a, b, i) == LegacyCompare(a, b)
    {
      var c := CompareChars(a[i], b[i]);
      if c != 0 {
        return c;
      }
    }
    r := if |a| == |b| then 0 else if |a| < |b| then -1 else 1;
  }

  // ---------------------------------------------------------------------------
  // Properties of the character comparison

  function Sign(x: int): int { if x < 0 then -1 else if x > 0 then 1 else 0 }

  /** Two characters compare equal exactly when they agree after lower-casing. */
  lemma CompareCharsZero(x: char, y: char)
    ensures CompareChars(x, y) == 0 <==> Lower(x) == Lower(y)
  {
    var a, b := Lower(x), Lower(y);
    if a != b {
      var ia, ib := Position(a), Position(b);
      PositionSpec(a);
      PositionSpec(b);
      if ia >= 0 && ib >= 0 {
        assert ia != ib;
      }
    }
  }

  /** Two ASCII letters that differ ignoring case never fall back to scalar-value order: the table decides. */
  lemma LettersCompareByTable(x: char, y: char)
    requires 'A' <= x <= 'Z' || 'a' <= x <= 'z'
    requires 'A' <= y <= 'Z' || 'a' <= y <= 'z'
    requires Lower(x) != Lower(y)
    ensures Position(Lower(x)) >= 0 && Position(Lower(y)) >= 0
    ensures CompareChars(x, y) == if Position(Lower(x)) < Position(Lower(y)) then -1 else 1
  {
    PositionSpec(Lower(x));
    PositionSpec(Lower(y));
  }

  /** Swapping the arguments negates the character comparison exactly. */
  lemma CompareCharsAntisymmetric(x: char, y: char)
    ensures CompareChars(x, y) == -CompareChars(y, x)
  {
    var a, b := Lower(x), Lower(y);
    if a != b {
      var ia, ib := Position(a), Position(b);
      PositionSpec(a);
      PositionSpec(b);
      if ia >= 0 && ib >= 0 {
        assert ia != ib;
      }
    }
  }

  // ---------------------------------------------------------------------------
  // Properties of the string comparison

  /** Swapping the arguments negates the result, so the signs are opposite. */
  lemma {:induction false} CompareFromAntisymmetric(a: string, b: string, i: nat)
    requires i <= |a| && i <= |b|
    ensures CompareFrom(a, b, i) == -CompareFrom(b, a, i)
    decreases |a| - i
  {
    if i < |a| && i < |b| {
      CompareCharsAntisymmetric(a[i], b[i]);
      if CompareChars(a[i], b[i]) == 0 {
        CompareFromAntisymmetric(a, b, i + 1);
      }
    }
  }

  lemma LegacyCompareAntisymmetric(a: string, b: string)
    ensures LegacyCompare(a, b) == -LegacyCompare(b, a)
    ensures Sign(LegacyCompare(a, b)) == -Sign(LegacyCompare(b, a))
  {
    CompareFromAntisymmetric(a, b, 0);
  }

  /** The strings agree, ignoring ASCII case, from index `i` on. */
  ghost predicate SameFrom(a: string, b: string, i: nat)
  {
    |a| == |b| && forall k :: i <= k < |a| ==> Lower(a[k]) == Lower(b[k])
  }

  lemma {:induction false} CompareFromZero(a: string, b: string, i: nat)
    requires i <= |a| && i <= |b|
    ensures CompareFrom(a, b, i) == 0 <==> SameFrom(a, b, i)
    decreases |a| - i
  {
    if i < |a| && i < |b| {
      CompareCharsZero(a[i], b[i]);
      if CompareChars(a[i], b[i]) == 0 {
        CompareFromZero(a, b, i + 1);
        if SameFrom(a, b, i + 1) {
          assert SameFrom(a, b, i);
        }
      }
    }
  }

  /** Zero exactly for strings of equal length that agree character by character after `ToLower`. */
  lemma LegacyCompareZero(a: string, b: string)
    ensures LegacyCompare(a, b) == 0 <==> |a| == |b| && forall k :: 0 <= k < |a| ==> Lower(a[k]) == Lower(b[k])
  {
    CompareFromZero(a, b, 0);
  }

  /** Every string compares equal to itself. */
  lemma LegacyCompareReflexive(a: string)
    ensures LegacyCompare(a, a) == 0
  {
    LegacyCompareZero(a, a);
  }

  lemma {:induction false} CompareFromSkipsEqualPrefix(a: string, b: string, i: nat, k: nat)
    requires i <= k <= |a| && k <= |b|
    requires forall j :: i <= j < k ==> Lower(a[j]) == Lower(b[j])
    ensures CompareFrom(a, b, i) == CompareFrom(a, b, k)
    decreases k - i
  {
    if i < k {
      CompareCharsZero(a[i], b[i]);
      CompareFromSkipsEqualPrefix(a, b, i + 1, k);
    }
  }

  /**
   * The result is decided at the first index `k` where the lower-cased characters differ:
   * by table position when both are in the table, by scalar value otherwise.
   */
  lemma LegacyCompareAtFirstDifference(a: string, b: string, k: nat)
    requires k < |a| && k < |b|
    requires forall j :: 0 <= j < k ==> Lower(a[j]) == Lower(b[j])
    requires Lower(a[k]) != Lower(b[k])
    ensures LegacyCompare(a, b) != 0
    ensures Position(Lower(a[k])) >= 0 && Position(Lower(b[k])) >= 0 ==>
      (LegacyCompare(a, b) < 0 <==> Position(Lower(a[k])) < Position(Lower(b[k])))
    ensures !(Position(Lower(a[k])) >= 0 && Position(Lower(b[k])) >= 0) ==>
      (LegacyCompare(a, b) < 0 <==> Lower(a[k]) < Lower(b[k]))
  {
    CompareFromSkipsEqualPrefix(a, b, 0, k);
    CompareCharsZero(a[k], b[k]);
  }

  /** Without a differing index the shorter string is less. */
  lemma LegacyCompareOnPrefix(a: string, b: string)
    requires |a| <= |b|
    requires forall j :: 0 <= j < |a| ==> Lower(a[j]) == Lower(b[j])
    ensures |a| < |b| ==> LegacyCompare(a, b) == -1
    ensures |a| == |b| ==> LegacyCompare(a, b) == 0
  {
    CompareFromSkipsEqualPrefix(a, b, 0, |a|);
  }
}
