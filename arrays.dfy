/**
 * The JavaScript array operations the two components rely on: `map`,
 * `filter`, the `[...new Set(xs)]` idiom for removing duplicates, and `sort`
 * without a comparator on strings.
 */
module Arrays {
  import opened Strings

  /** No element appears twice. */
  ghost predicate NoDup<T>(s: seq<T>)
  {
    forall i, j :: 0 <= i < j < |s| ==> s[i] != s[j]
  }

  /** `a` is `b` with some elements left out, the rest kept in their order. */
  ghost predicate IsSubsequence<T>(a: seq<T>, b: seq<T>)
    decreases |b|
  {
    if b == [] then a == []
    else (a != [] && a[0] == b[0] && IsSubsequence(a[1..], b[1..])) || IsSubsequence(a, b[1..])
  }

  lemma {:induction false} SubsequenceReflexive<T>(s: seq<T>)
    ensures IsSubsequence(s, s)
  {
    if s != [] {
      SubsequenceReflexive(s[1..]);
    }
  }

  /** `Array.prototype.map`. */
  function MapSeq<A, B>(s: seq<A>, f: A -> B): seq<B>
  {
    if s == [] then [] else [f(s[0])] + MapSeq(s[1..], f)
  }

  lemma {:induction false} MapSeqAt<A, B>(s: seq<A>, f: A -> B, i: int)
    requires 0 <= i < |s|
    ensures |MapSeq(s, f)| == |s| && MapSeq(s, f)[i] == f(s[i])
  {
    MapSeqLength(s[1..], f);
    if i > 0 {
      MapSeqAt(s[1..], f, i - 1);
    }
  }

  lemma {:induction false} MapSeqLength<A, B>(s: seq<A>, f: A -> B)
    ensures |MapSeq(s, f)| == |s|
  {
    if s != [] {
      MapSeqLength(s[1..], f);
    }
  }

  /** `Array.prototype.filter`. */
  function KeepIf<T>(s: seq<T>, p: T -> bool): seq<T>
  {
    if s == [] then [] else (if p(s[0]) then [s[0]] else []) + KeepIf(s[1..], p)
  }

  lemma {:induction false} KeepIfMembers<T(!new)>(s: seq<T>, p: T -> bool)
    ensures forall x :: x in KeepIf(s, p) <==> x in s && p(x)
  {
    if s != [] {
      KeepIfMembers(s[1..], p);
      assert s == [s[0]] + s[1..];
    }
  }

  /** Every kept element keeps its multiplicity; every other one is gone. */
  lemma {:induction false} KeepIfCounts<T>(s: seq<T>, p: T -> bool, x: T)
    ensures multiset(KeepIf(s, p))[x] == if p(x) then multiset(s)[x] else 0
  {
    if s != [] {
      KeepIfCounts(s[1..], p, x);
      assert s == [s[0]] + s[1..];
    }
  }

  lemma {:induction false} KeepIfSubsequence<T>(s: seq<T>, p: T -> bool)
    ensures IsSubsequence(KeepIf(s, p), s)
  {
    if s != [] {
      KeepIfSubsequence(s[1..], p);
      if p(s[0]) {
        assert KeepIf(s, p) == [s[0]] + KeepIf(s[1..], p);
        assert KeepIf(s, p)[1..] == KeepIf(s[1..], p);
      } else {
        assert KeepIf(s, p) == KeepIf(s[1..], p);
      }
    }
  }

  lemma {:induction false} KeepIfAll<T(!new)>(s: seq<T>, p: T -> bool)
    requires forall x :: x in s ==> p(x)
    ensures KeepIf(s, p) == s
  {
    if s != [] {
      KeepIfAll(s[1..], p);
      assert s == [s[0]] + s[1..];
    }
  }

  /** Filtering twice by the same test changes nothing the second time. */
  lemma KeepIfIdempotent<T(!new)>(s: seq<T>, p: T -> bool)
    ensures KeepIf(KeepIf(s, p), p) == KeepIf(s, p)
  {
    var kept := KeepIf(s, p);
    KeepIfMembers(s, p);
    KeepIfAll(kept, p);
  }

  lemma {:induction false} SubsequenceMembers<T(!new)>(a: seq<T>, b: seq<T>)
    requires IsSubsequence(a, b)
    ensures forall x :: x in a ==> x in b
  {
    if b != [] {
      if a != [] && a[0] == b[0] && IsSubsequence(a[1..], b[1..]) {
        SubsequenceMembers(a[1..], b[1..]);
        assert a == [a[0]] + a[1..];
      } else {
        SubsequenceMembers(a, b[1..]);
      }
    }
  }

  lemma {:induction false} SubsequenceAscending(a: seq<string>, b: seq<string>)
    requires IsSubsequence(a, b) && Ascending(b)
    ensures Ascending(a)
  {
    if b != [] {
      if a != [] && a[0] == b[0] && IsSubsequence(a[1..], b[1..]) {
        SubsequenceAscending(a[1..], b[1..]);
        SubsequenceMembers(a[1..], b[1..]);
        forall i, j | 0 <= i < j < |a|
          ensures Less(a[i], a[j])
        {
          if i > 0 {
            assert a[i] == a[1..][i - 1] && a[j] == a[1..][j - 1];
          } else {
            assert a[j] in a[1..];
            assert a[j] in b[1..];
          }
        }
      } else {
        SubsequenceAscending(a, b[1..]);
      }
    }
  }

  lemma {:induction false} SubsequenceNoDup<T(!new)>(a: seq<T>, b: seq<T>)
    requires IsSubsequence(a, b) && NoDup(b)
    ensures NoDup(a)
  {
    if b != [] {
      if a != [] && a[0] == b[0] && IsSubsequence(a[1..], b[1..]) {
        SubsequenceNoDup(a[1..], b[1..]);
        SubsequenceMembers(a[1..], b[1..]);
        forall i, j | 0 <= i < j < |a|
          ensures a[i] != a[j]
        {
          if i > 0 {
            assert a[i] == a[1..][i - 1] && a[j] == a[1..][j - 1];
          } else {
            assert a[j] in a[1..];
            assert a[j] in b[1..];
          }
        }
      } else {
        SubsequenceNoDup(a, b[1..]);
      }
    }
  }

  /** `[...new Set(s)]`: the first occurrence of every element, in order. */
  function Dedupe<T(==,!new)>(s: seq<T>): (r: seq<T>)
    ensures NoDup(r)
    ensures forall x :: x in r <==> x in s
  {
    if s == [] then []
    else
      var init := Dedupe(s[..|s| - 1]);
      assert s == s[..|s| - 1] + [s[|s| - 1]];
      if s[|s| - 1] in init then init else init + [s[|s| - 1]]
  }

  /** Places `x` in front of the first element it does not come after. */
  function Insert(x: string, s: seq<string>): seq<string>
  {
    if s == [] then [x]
    else if Less(s[0], x) then [s[0]] + Insert(x, s[1..])
    else [x] + s
  }

  /** `Array.prototype.sort` on strings with no comparator. */
  function SortStrings(s: seq<string>): seq<string>
  {
    if s == [] then [] else Insert(s[0], SortStrings(s[1..]))
  }

  lemma {:induction false} InsertContents(x: string, s: seq<string>)
    ensures multiset(Insert(x, s)) == multiset(s) + multiset{x}
  {
    if s != [] && Less(s[0], x) {
      InsertContents(x, s[1..]);
      assert s == [s[0]] + s[1..];
    }
  }

  lemma {:induction false} InsertAscending(x: string, s: seq<string>)
    requires Ascending(s) && x !in s
    ensures Ascending(Insert(x, s))
  {
    if s != [] {
      if Less(s[0], x) {
        InsertAscending(x, s[1..]);
        InsertContents(x, s[1..]);
        var r := Insert(x, s);
        forall j | 0 < j < |r|
          ensures Less(s[0], r[j])
        {
          assert r[j] == r[1..][j - 1];
          assert r[j] in multiset(Insert(x, s[1..]));
          if r[j] != x {
            assert r[j] in s[1..];
          }
        }
      } else {
        LessTotal(x, s[0]);
        forall j | 0 < j < |s|
          ensures Less(x, s[j])
        {
          LessTransitive(x, s[0], s[j]);
        }
      }
    }
  }

  lemma {:induction false} SortStringsContents(s: seq<string>)
    ensures multiset(SortStrings(s)) == multiset(s)
  {
    if s != [] {
      SortStringsContents(s[1..]);
      InsertContents(s[0], SortStrings(s[1..]));
      assert s == [s[0]] + s[1..];
    }
  }

  /** Sorting a duplicate-free list yields it in strictly ascending order. */
  lemma {:induction false} SortStringsAscending(s: seq<string>)
    requires NoDup(s)
    ensures Ascending(SortStrings(s))
  {
    if s != [] {
      assert NoDup(s[1..]) by {
        forall i, j | 0 <= i < j < |s[1..]| ensures s[1..][i] != s[1..][j] {
          assert s[1..][i] == s[i + 1] && s[1..][j] == s[j + 1];
        }
      }
      SortStringsAscending(s[1..]);
      SortStringsContents(s[1..]);
      assert s[0] !in multiset(s[1..]);
      InsertAscending(s[0], SortStrings(s[1..]));
    }
  }

  /** There is only one strictly ascending arrangement of a set of strings,
      so any correct sort gives the same list as `SortStrings`. */
  lemma {:induction false} AscendingUnique(a: seq<string>, b: seq<string>)
    requires Ascending(a) && Ascending(b)
    requires forall x :: x in a <==> x in b
    ensures a == b
  {
    if a != [] {
      assert a[0] in b;
    }
    if b != [] {
      assert b[0] in a;
    }
    if a != [] && b != [] {
      if a[0] != b[0] {
        var i :| 0 <= i < |a| && a[i] == b[0];
        var j :| 0 <= j < |b| && b[j] == a[0];
        assert Less(a[0], b[0]);
        assert Less(b[0], a[0]);
        LessAsymmetric(a[0], b[0]);
      }
      forall x
        ensures x in a[1..] <==> x in b[1..]
      {
        assert a == [a[0]] + a[1..] && b == [b[0]] + b[1..];
        if x in a[1..] {
          var i :| 1 <= i < |a| && a[i] == x;
          assert x in a && x in b;
          assert Less(a[0], x);
          LessIrreflexive(a[0]);
          assert x != b[0];
        }
        if x in b[1..] {
          var j :| 1 <= j < |b| && b[j] == x;
          assert x in b && x in a;
          assert Less(b[0], x);
          LessIrreflexive(b[0]);
          assert x != a[0];
        }
      }
      AscendingUnique(a[1..], b[1..]);
    }
  }
}
