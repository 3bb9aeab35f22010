/**
 * Python 2 `str` ordering, `sorted` and `''.join`, as used by the handshake check.
 * A Python 2 `str` is a byte string and `<` on it compares byte by byte, a proper
 * prefix being smaller. Here each `char` stands for one byte, compared by its code.
 */
module StringOrder {

  /** Byte-wise lexicographic `<` of Python 2 `str`. */
  predicate Less(a: string, b: string)
    decreases |a|
  {
    if |a| == 0 then |b| > 0
    else |b| > 0 && (a[0] < b[0] || (a[0] == b[0] && Less(a[1..], b[1..])))
  }

  predicate LessEq(a: string, b: string) {
    a == b || Less(a, b)
  }

  /** The textbook definition: `a` is a proper prefix of `b`, or the first difference favours `a`. */
  ghost predicate Lexicographic(a: string, b: string) {
    (|a| < |b| && a == b[..|a|])
    || exists i :: 0 <= i < |a| && i < |b| && a[..i] == b[..i] && a[i] < b[i]
  }

  lemma {:induction false} LessIsLexicographic(a: string, b: string)
    ensures Less(a, b) <==> Lexicographic(a, b)
    decreases |a|
  {
    if |a| == 0 {
      assert |b| > 0 ==> a == b[..0];
    } else if |b| == 0 {
    } else if a[0] < b[0] {
      assert a[..0] == b[..0];
    } else if a[0] == b[0] {
      LessIsLexicographic(a[1..], b[1..]);
      if Less(a[1..], b[1..]) {
        if |a[1..]| < |b[1..]| && a[1..] == b[1..][..|a[1..]|] {
          assert a == [a[0]] + a[1..] && b[..|a|] == [b[0]] + b[1..][..|a[1..]|];
        } else {
          var i :| 0 <= i < |a[1..]| && i < |b[1..]| && a[1..][..i] == b[1..][..i] && a[1..][i] < b[1..][i];
          assert a[..i + 1] == [a[0]] + a[1..][..i] && b[..i + 1] == [b[0]] + b[1..][..i];
          assert a[i + 1] < b[i + 1];
        }
      } else {
        forall i | 0 <= i < |a| && i < |b| && a[..i] == b[..i] ensures !(a[i] < b[i]) {
          if i > 0 {
            assert a[1..][..i - 1] == a[..i][1..] && b[1..][..i - 1] == b[..i][1..];
          }
        }
      }
    }
  }

  lemma {:induction false} LessIrreflexive(a: string)
    ensures !Less(a, a)
    decreases |a|
  {
    if |a| > 0 {
      LessIrreflexive(a[1..]);
    }
  }

  lemma {:induction false} LessAsymmetric(a: string, b: string)
    requires Less(a, b)
    ensures !Less(b, a)
    decreases |a|
  {
    if |a| > 0 && a[0] == b[0] {
      LessAsymmetric(a[1..], b[1..]);
    }
  }

  lemma {:induction false} LessTransitive(a: string, b: string, c: string)
    requires Less(a, b) && Less(b, c)
    ensures Less(a, c)
    decreases |a|
  {
    if |a| > 0 && a[0] == b[0] && b[0] == c[0] {
      LessTransitive(a[1..], b[1..], c[1..]);
    }
  }

  /** Two different byte strings are always ordered one way or the other. */
  lemma {:induction false} LessTotal(a: string, b: string)
    requires a != b
    ensures Less(a, b) || Less(b, a)
    decreases |a|
  {
    if |a| > 0 && |b| > 0 && a[0] == b[0] {
      assert a == [a[0]] + a[1..] && b == [b[0]] + b[1..];
      LessTotal(a[1..], b[1..]);
    }
  }

  lemma LessEqTransitive(a: string, b: string, c: string)
    requires LessEq(a, b) && LessEq(b, c)
    ensures LessEq(a, c)
  {
    if a != b && b != c {
      LessTransitive(a, b, c);
    }
  }

  lemma LessEqAntisymmetric(a: string, b: string)
    requires LessEq(a, b) && LessEq(b, a)
    ensures a == b
  {
    if a != b {
      LessAsymmetric(a, b);
    }
  }

  ghost predicate Antisymmetric(le: (string, string) -> bool) {
    forall a, b :: le(a, b) && le(b, a) ==> a == b
  }

  ghost predicate Transitive(le: (string, string) -> bool) {
    forall a, b, c :: le(a, b) && le(b, c) ==> le(a, c)
  }

  ghost predicate Total(le: (string, string) -> bool) {
    forall a, b :: le(a, b) || le(b, a)
  }

  /** `le` is a total order: antisymmetric, transitive and total. */
  ghost predicate TotalOrder(le: (string, string) -> bool) {
    Antisymmetric(le) && Transitive(le) && Total(le)
  }

  /** Python 2 `str` comparison orders all strings. */
  lemma LessEqIsTotalOrder()
    ensures TotalOrder(LessEq)
  {
    forall a, b | LessEq(a, b) && LessEq(b, a) ensures a == b {
      LessEqAntisymmetric(a, b);
    }
    forall a, b, c | LessEq(a, b) && LessEq(b, c) ensures LessEq(a, c) {
      LessEqTransitive(a, b, c);
    }
    forall a, b ensures LessEq(a, b) || LessEq(b, a) {
      if a != b {
        LessTotal(a, b);
      }
    }
  }

  predicate Sorted(s: seq<string>, le: (string, string) -> bool) {
    forall i, j :: 0 <= i < j < |s| ==> le(s[i], s[j])
  }

  /** Inserts `x` before the first element it does not exceed. */
  function Insert(x: string, s: seq<string>, le: (string, string) -> bool): seq<string> {
    if s == [] then [x]
    else if le(x, s[0]) then [x] + s
    else [s[0]] + Insert(x, s[1..], le)
  }

  /** `sorted`: an ascending rearrangement under `le`; Python's `sorted` on `str` is `Sort(s, LessEq)`. */
  function Sort(s: seq<string>, le: (string, string) -> bool): seq<string> {
    if s == [] then [] else Insert(s[0], Sort(s[1..], le), le)
  }

  /** `''.join(ss)`: the strings one after another, with no separator. */
  function Concat(ss: seq<string>): string {
    if ss == [] then "" else ss[0] + Concat(ss[1..])
  }

  lemma {:induction false} InsertPermutation(x: string, s: seq<string>, le: (string, string) -> bool)
    ensures multiset(Insert(x, s, le)) == multiset(s) + multiset{x}
    decreases |s|
  {
    if s != [] {
      assert s == [s[0]] + s[1..];
      if !le(x, s[0]) {
        InsertPermutation(x, s[1..], le);
      }
    }
  }

  /** Inserting into an ascending list keeps it ascending. */
  lemma {:induction false} InsertSorted(x: string, s: seq<string>, le: (string, string) -> bool)
    requires Transitive(le) && Total(le) && Sorted(s, le)
    ensures Sorted(Insert(x, s, le), le)
    decreases |s|
  {
    if s == [] {
    } else if le(x, s[0]) {
      var r := [x] + s;
      forall j | 0 < j < |r| ensures le(x, r[j]) {
        assert j == 1 || (le(x, s[0]) && le(s[0], s[j - 1]));
      }
    } else {
      var tail := Insert(x, s[1..], le);
      InsertSorted(x, s[1..], le);
      InsertPermutation(x, s[1..], le);
      var r := [s[0]] + tail;
      forall j | 0 < j < |r| ensures le(s[0], r[j]) {
        assert r[j] in multiset(tail);
        if r[j] != x {
          assert r[j] in multiset(s[1..]);
          var k :| 0 <= k < |s[1..]| && s[1..][k] == r[j];
          assert s[k + 1] == r[j];
        }
      }
    }
  }

  /** `Sort` yields an ascending permutation of its input. */
  lemma {:induction false} SortSortedPermutation(s: seq<string>, le: (string, string) -> bool)
    requires TotalOrder(le)
    ensures Sorted(Sort(s, le), le)
    ensures multiset(Sort(s, le)) == multiset(s)
    decreases |s|
  {
    if s != [] {
      SortSortedPermutation(s[1..], le);
      InsertSorted(s[0], Sort(s[1..], le), le);
      InsertPermutation(s[0], Sort(s[1..], le), le);
      assert s == [s[0]] + s[1..];
    }
  }

  /** The head of an ascending list is below every other element of it. */
  lemma SortedHeadIsLeast(r: seq<string>, x: string, le: (string, string) -> bool)
    requires Sorted(r, le) && x in r
    ensures x == r[0] || le(r[0], x)
  {
    var j :| 0 <= j < |r| && r[j] == x;
  }

  /** Two ascending arrangements of the same strings start with the same string. */
  lemma SortedHeadsAgree(r: seq<string>, t: seq<string>, le: (string, string) -> bool)
    requires Antisymmetric(le) && Sorted(r, le) && Sorted(t, le)
    requires multiset(r) == multiset(t) && |r| > 0 && |t| > 0
    ensures r[0] == t[0]
  {
    assert r[0] in multiset(t) && t[0] in multiset(r);
    SortedHeadIsLeast(t, r[0], le);
    SortedHeadIsLeast(r, t[0], le);
  }

  lemma MultisetOfTail(r: seq<string>)
    requires |r| > 0
    ensures multiset(r[1..]) == multiset(r) - multiset{r[0]}
  {
    assert r == [r[0]] + r[1..];
  }

  /** There is only one ascending arrangement of a given collection of strings. */
  lemma {:induction false} SortedUnique(r: seq<string>, t: seq<string>, le: (string, string) -> bool)
    requires Antisymmetric(le) && Sorted(r, le) && Sorted(t, le)
    requires multiset(r) == multiset(t)
    ensures r == t
    decreases |r|
  {
    assert |r| == |multiset(r)| == |multiset(t)| == |t|;
    if |r| > 0 {
      SortedHeadsAgree(r, t, le);
      MultisetOfTail(r);
      MultisetOfTail(t);
      SortedUnique(r[1..], t[1..], le);
      assert r == [r[0]] + r[1..] && t == [t[0]] + t[1..];
    }
  }

  /** The result of `sorted` depends only on which strings are given, not on their order. */
  lemma SortPermutationInvariant(s: seq<string>, t: seq<string>, le: (string, string) -> bool)
    requires TotalOrder(le)
    requires multiset(s) == multiset(t)
    ensures Sort(s, le) == Sort(t, le)
  {
    SortSortedPermutation(s, le);
    SortSortedPermutation(t, le);
    SortedUnique(Sort(s, le), Sort(t, le), le);
  }
}
