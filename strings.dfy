/**
 * The JavaScript string primitives the two components rely on: the order in
 * which `Array.prototype.sort` puts strings when given no comparator (UTF-16
 * code units, compared lexicographically), `toLowerCase` and `includes`.
 */
module Strings {

  /** A UTF-16 code unit. */
  type CodeUnit = n: int | 0 <= n < 0x1_0000

  /** UTF-16 encoding of one character: one unit inside the Basic Multilingual
      Plane, a lead and a trail surrogate outside it. */
  function EncodeChar(c: char): (u: seq<CodeUnit>)
    ensures |u| == 1 <==> c as int < 0x1_0000
    ensures |u| == 1 || |u| == 2
    ensures |u| == 2 ==> 0xD800 <= u[0] < 0xDC00
  {
    var n := c as int;
    if n < 0x1_0000 then [n]
    else [0xD800 + (n - 0x1_0000) / 0x400, 0xDC00 + (n - 0x1_0000) % 0x400]
  }

  /** UTF-16 encoding of a string, the representation JavaScript strings have. */
  function Encode(s: string): (u: seq<CodeUnit>)
    ensures |u| >= |s|
  {
    if s == [] then [] else EncodeChar(s[0]) + Encode(s[1..])
  }

  /** Lexicographic order on code-unit sequences (a proper prefix comes first). */
  predicate UnitsLess(a: seq<CodeUnit>, b: seq<CodeUnit>)
  {
    if |a| == 0 then |b| > 0
    else if |b| == 0 then false
    else if a[0] != b[0] then a[0] < b[0]
    else UnitsLess(a[1..], b[1..])
  }

  /** Where a character stands in code-unit order: characters above the
      surrogate range come after every supplementary character, whose lead
      unit lies inside that range. */
  function Rank(c: char): int
  {
    var n := c as int;
    if n < 0xD800 then n
    else if n < 0x1_0000 then n + 0x10_0000
    else 0xD800 + (n - 0x1_0000)
  }

  /** The order JavaScript's default sort uses, stated on characters. */
  predicate Less(a: string, b: string)
  {
    if |a| == 0 then |b| > 0
    else if |b| == 0 then false
    else if a[0] != b[0] then Rank(a[0]) < Rank(b[0])
    else Less(a[1..], b[1..])
  }

  /** Strictly ascending in that order (hence also free of duplicates). */
  ghost predicate Ascending(s: seq<string>)
  {
    forall i, j :: 0 <= i < j < |s| ==> Less(s[i], s[j])
  }

  lemma {:induction false} UnitsLessCommonPrefix(u: seq<CodeUnit>, x: seq<CodeUnit>, y: seq<CodeUnit>)
    ensures UnitsLess(u + x, u + y) == UnitsLess(x, y)
  {
    if u != [] {
      assert (u + x)[1..] == u[1..] + x;
      assert (u + y)[1..] == u[1..] + y;
      UnitsLessCommonPrefix(u[1..], x, y);
    } else {
      assert u + x == x && u + y == y;
    }
  }

  /** Two different characters are ordered by their encodings alone, whatever
      follows them: no encoding is a prefix of another's. */
  lemma UnitsLessFirstChar(c: char, d: char, x: seq<CodeUnit>, y: seq<CodeUnit>)
    requires c != d
    ensures UnitsLess(EncodeChar(c) + x, EncodeChar(d) + y) == (Rank(c) < Rank(d))
  {
  }

  /** `Less` is exactly the UTF-16 code-unit order JavaScript sorts by. */
  lemma {:induction false} LessIsCodeUnitOrder(a: string, b: string)
    ensures Less(a, b) == UnitsLess(Encode(a), Encode(b))
  {
    if a != [] && b != [] {
      assert Encode(a) == EncodeChar(a[0]) + Encode(a[1..]);
      assert Encode(b) == EncodeChar(b[0]) + Encode(b[1..]);
      if a[0] == b[0] {
        UnitsLessCommonPrefix(EncodeChar(a[0]), Encode(a[1..]), Encode(b[1..]));
        LessIsCodeUnitOrder(a[1..], b[1..]);
      } else {
        UnitsLessFirstChar(a[0], b[0], Encode(a[1..]), Encode(b[1..]));
      }
    }
  }

  lemma {:induction false} LessIrreflexive(a: string)
    ensures !Less(a, a)
  {
    if a != [] {
      LessIrreflexive(a[1..]);
    }
  }

  lemma {:induction false} LessTransitive(a: string, b: string, c: string)
    requires Less(a, b) && Less(b, c)
    ensures Less(a, c)
  {
    if a != [] && a[0] == b[0] && b[0] == c[0] {
      LessTransitive(a[1..], b[1..], c[1..]);
    }
  }

  lemma {:induction false} LessTotal(a: string, b: string)
    requires a != b
    ensures Less(a, b) || Less(b, a)
  {
    if a != [] && b != [] && a[0] == b[0] {
      assert a == [a[0]] + a[1..] && b == [b[0]] + b[1..];
      LessTotal(a[1..], b[1..]);
    }
  }

  lemma LessAsymmetric(a: string, b: string)
    requires Less(a, b)
    ensures !Less(b, a)
  {
  }

  /** ASCII case mapping; characters outside A-Z (resp. a-z) are left alone. */
  function LowerChar(c: char): char
  {
    if 'A' <= c <= 'Z' then (c as int + 32) as char else c
  }

  function UpperChar(c: char): char
  {
    if 'a' <= c <= 'z' then (c as int - 32) as char else c
  }

  /** `String.prototype.toLowerCase`, restricted to ASCII letters. */
  function ToLower(s: string): string
  {
    seq(|s|, i requires 0 <= i < |s| => LowerChar(s[i]))
  }

  function ToUpper(s: string): string
  {
    seq(|s|, i requires 0 <= i < |s| => UpperChar(s[i]))
  }

  /** `a` and `b` spell the same text up to the case of ASCII letters. */
  ghost predicate SameUpToCase(a: string, b: string)
  {
    |a| == |b| && forall i :: 0 <= i < |a| ==> LowerChar(a[i]) == LowerChar(b[i])
  }

  lemma SameUpToCaseLower(a: string, b: string)
    requires SameUpToCase(a, b)
    ensures ToLower(a) == ToLower(b)
  {
  }

  lemma UpperSameUpToCase(s: string)
    ensures SameUpToCase(ToUpper(s), s)
  {
  }

  /** `needle` occurs in `hay` starting at position `i`. */
  ghost predicate OccursAt(hay: string, needle: string, i: int)
  {
    0 <= i && i + |needle| <= |hay| && hay[i..i + |needle|] == needle
  }

  /** `String.prototype.includes`: `needle` is a prefix of `hay` or of one of its suffixes. */
  function Includes(hay: string, needle: string): bool
  {
    needle <= hay || (hay != [] && Includes(hay[1..], needle))
  }

  lemma {:induction false} OccursIncludes(hay: string, needle: string, i: int)
    requires OccursAt(hay, needle, i)
    ensures Includes(hay, needle)
  {
    if i == 0 {
      assert needle <= hay;
    } else {
      assert hay[1..][i - 1..i - 1 + |needle|] == hay[i..i + |needle|];
      OccursIncludes(hay[1..], needle, i - 1);
    }
  }

  lemma {:induction false} IncludesOccurs(hay: string, needle: string)
    ensures Includes(hay, needle) <==> exists i :: OccursAt(hay, needle, i)
  {
    if needle <= hay {
      assert OccursAt(hay, needle, 0);
    } else if hay != [] && Includes(hay[1..], needle) {
      IncludesOccurs(hay[1..], needle);
      var i :| OccursAt(hay[1..], needle, i);
      assert hay[i + 1..i + 1 + |needle|] == hay[1..][i..i + |needle|];
      assert OccursAt(hay, needle, i + 1);
    }
    forall i | OccursAt(hay, needle, i)
      ensures Includes(hay, needle)
    {
      OccursIncludes(hay, needle, i);
    }
  }

  lemma IncludesItself(s: string)
    ensures Includes(s, s) && Includes(s, "")
  {
  }
}
