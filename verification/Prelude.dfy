/** Shared vocabulary: options, duplicate-free sequences, and the order Python puts on strings. */
module Prelude {

  datatype Option<+T> = None | Some(value: T)

  predicate NoDup<T(==)>(s: seq<T>) {
    forall i, j :: 0 <= i < j < |s| ==> s[i] != s[j]
  }

  ghost function Elements<T>(s: seq<T>): set<T> {
    set x | x in s
  }

  lemma NoDupSnoc<T>(s: seq<T>, x: T)
    requires NoDup(s) && x !in s
    ensures NoDup(s + [x]) && Elements(s + [x]) == Elements(s) + {x}
  {
  }

  /** A duplicate-free sequence drawn from a finite set is no longer than the set. */
  lemma {:induction false} NoDupFits<T>(s: seq<T>, u: set<T>)
    requires NoDup(s) && Elements(s) <= u
    ensures |s| <= |u|
  {
    if s == [] {
    } else {
      var last := s[|s| - 1];
      assert last in Elements(s);
      forall x | x in Elements(s[..|s| - 1]) ensures x in u - {last} {
        assert x in s;
      }
      NoDupFits(s[..|s| - 1], u - {last});
    }
  }

  lemma {:induction false} SubsetSize<T>(a: set<T>, b: set<T>)
    requires a <= b
    ensures |a| <= |b|
  {
    if a != {} {
      var x :| x in a;
      SubsetSize(a - {x}, b - {x});
    }
  }

  lemma {:induction false} NoDupCard<T>(s: seq<T>)
    requires NoDup(s)
    ensures |Elements(s)| == |s|
  {
    if s != [] {
      var last := s[|s| - 1];
      assert s == s[..|s| - 1] + [last];
      NoDupCard(s[..|s| - 1]);
      NoDupSnoc(s[..|s| - 1], last);
    }
  }

  lemma MultisetHead<T>(s: seq<T>)
    requires s != []
    ensures multiset(s) == multiset(s[1..]) + multiset{s[0]}
  {
    assert s == [s[0]] + s[1..];
  }

  lemma MultisetWithout<T>(s: seq<T>, i: nat)
    requires i < |s|
    ensures multiset(s) == multiset(s[..i] + s[i + 1..]) + multiset{s[i]}
  {
    assert s == s[..i] + [s[i]] + s[i + 1..];
  }

  lemma MultisetCancel<T>(a: multiset<T>, b: multiset<T>, x: T)
    requires a + multiset{x} == b + multiset{x}
    ensures a == b
  {
    assert a == (a + multiset{x}) - multiset{x} && b == (b + multiset{x}) - multiset{x};
  }

  /** Dropping the first of `a` and one equal element of its permutation `b` leaves permutations. */
  lemma RemoveOne<T>(a: seq<T>, b: seq<T>) returns (i: nat)
    requires a != [] && multiset(a) == multiset(b)
    ensures i < |b| && b[i] == a[0]
    ensures multiset(a[1..]) == multiset(b[..i] + b[i + 1..])
  {
    MultisetHead(a);
    assert a[0] in multiset(b);
    i :| 0 <= i < |b| && b[i] == a[0];
    MultisetWithout(b, i);
    MultisetCancel(multiset(a[1..]), multiset(b[..i] + b[i + 1..]), a[0]);
  }

  // ----- the lexicographic order on strings -----

  predicate LexLeq(a: string, b: string) {
    a == "" || (b != "" && (a[0] < b[0] || (a[0] == b[0] && LexLeq(a[1..], b[1..]))))
  }

  lemma {:induction false} LexTotal(a: string, b: string)
    ensures LexLeq(a, b) || LexLeq(b, a)
  {
    if a != "" && b != "" && a[0] == b[0] {
      LexTotal(a[1..], b[1..]);
    }
  }

  lemma {:induction false} LexTransitive(a: string, b: string, c: string)
    requires LexLeq(a, b) && LexLeq(b, c)
    ensures LexLeq(a, c)
  {
    if a != "" && a[0] == b[0] && b[0] == c[0] {
      LexTransitive(a[1..], b[1..], c[1..]);
    }
  }

  lemma {:induction false} LexAntisymmetric(a: string, b: string)
    requires LexLeq(a, b) && LexLeq(b, a)
    ensures a == b
  {
    if a != "" && b != "" {
      LexAntisymmetric(a[1..], b[1..]);
      assert a == [a[0]] + a[1..] && b == [b[0]] + b[1..];
    }
  }

  /** The order compares at the first difference; a prefix comes before what extends it. */
  lemma {:induction false} LexMeaning(a: string, b: string)
    ensures LexLeq(a, b) <==>
            exists n: nat :: n <= |a| && n <= |b| && a[..n] == b[..n] && (n == |a| || (n < |b| && a[n] < b[n]))
  {
    if a == "" {
      assert a[..0] == b[..0];
    } else if b != "" && a[0] == b[0] {
      LexMeaning(a[1..], b[1..]);
      if n: nat :| n <= |a| && n <= |b| && a[..n] == b[..n] && (n == |a| || (n < |b| && a[n] < b[n])) {
        var m: nat := n - 1;
        assert a[1..][..m] == a[..n][1..] && b[1..][..m] == b[..n][1..];
      }
      if LexLeq(a[1..], b[1..]) {
        var m: nat :| m < |a| && m < |b| && a[1..][..m] == b[1..][..m]
                      && (m == |a| - 1 || (m < |b| - 1 && a[1..][m] < b[1..][m]));
        assert a[..m + 1] == [a[0]] + a[1..][..m] && b[..m + 1] == [b[0]] + b[1..][..m];
      }
    } else if b != "" && a[0] < b[0] {
      assert a[..0] == b[..0];
    } else if n: nat :| n <= |a| && n <= |b| && a[..n] == b[..n] && (n == |a| || (n < |b| && a[n] < b[n])) {
      assert n > 0 ==> a[..n][0] == b[..n][0];
    }
  }

  // ----- selections that keep the order -----

  /** `s` with some elements left out. */
  predicate Subsequence<T(==)>(sub: seq<T>, s: seq<T>) {
    sub == [] || (s != [] && (Subsequence(sub, s[1..]) || (sub[0] == s[0] && Subsequence(sub[1..], s[1..]))))
  }

  lemma {:induction false} SubsequenceCons<T>(sub: seq<T>, s: seq<T>)
    requires s != [] && Subsequence(sub, s[1..])
    ensures Subsequence(sub, s) && Subsequence([s[0]] + sub, s)
  {
    assert ([s[0]] + sub)[1..] == sub;
  }

  lemma {:induction false} SubsequenceAt<T>(sub: seq<T>, s: seq<T>, b: nat) returns (j: nat)
    requires Subsequence(sub, s) && b < |sub|
    ensures j < |s| && s[j] == sub[b]
  {
    if Subsequence(sub, s[1..]) {
      j := SubsequenceAt(sub, s[1..], b);
      j := j + 1;
    } else if b == 0 {
      j := 0;
    } else {
      j := SubsequenceAt(sub[1..], s[1..], b - 1);
      j := j + 1;
    }
  }

  /** Any two elements come in the same order in both. */
  lemma {:induction false} SubsequenceOrder<T>(sub: seq<T>, s: seq<T>, a: nat, b: nat) returns (i: nat, j: nat)
    requires Subsequence(sub, s) && a < b < |sub|
    ensures i < j < |s| && s[i] == sub[a] && s[j] == sub[b]
  {
    if Subsequence(sub, s[1..]) {
      i, j := SubsequenceOrder(sub, s[1..], a, b);
      i, j := i + 1, j + 1;
    } else if a == 0 {
      i := 0;
      j := SubsequenceAt(sub[1..], s[1..], b - 1);
      j := j + 1;
    } else {
      i, j := SubsequenceOrder(sub[1..], s[1..], a - 1, b - 1);
      i, j := i + 1, j + 1;
    }
  }
}
