/** Sequence operations of the JavaScript runtime: `slice(0, n)` and the insertion order of a `Set`. */
module Seqs {

  /**
   * Concatenation regroups. Stated once here so that callers holding
   * sequences of strings need not rediscover it element by element.
   */
  lemma AppendAssoc<T>(x: seq<T>, a: seq<T>, b: seq<T>)
    ensures (x + a) + b == x + (a + b)
  {
  }

  lemma AppendNil<T>(x: seq<T>)
    ensures x + [] == x
  {
  }

  /** `a` is `b` with some elements left out and the rest in their original order. */
  predicate IsSubseq<T(==)>(a: seq<T>, b: seq<T>)
  {
    if a == [] then true
    else if b == [] then false
    else if a[0] == b[0] then IsSubseq(a[1..], b[1..])
    else IsSubseq(a, b[1..])
  }

  predicate Distinct<T(==)>(s: seq<T>) {
    forall i, j :: 0 <= i < j < |s| ==> s[i] != s[j]
  }

  lemma {:induction false} SubseqMembers<T>(a: seq<T>, b: seq<T>)
    requires IsSubseq(a, b)
    ensures |a| <= |b|
    ensures forall x :: x in a ==> x in b
  {
    if a != [] {
      if a[0] == b[0] {
        SubseqMembers(a[1..], b[1..]);
        assert forall x :: x in a ==> x == a[0] || x in a[1..];
      } else {
        SubseqMembers(a, b[1..]);
      }
    }
  }

  lemma {:induction false} SubseqRefl<T>(s: seq<T>)
    ensures IsSubseq(s, s)
  {
    if s != [] { SubseqRefl(s[1..]); }
  }

  lemma {:induction false} SubseqOfEmpty<T>(b: seq<T>)
    ensures IsSubseq([], b)
  {
  }

  /** Keeping `x` at the head of both sides keeps the relation. */
  lemma SubseqCons<T>(x: T, a: seq<T>, b: seq<T>)
    requires IsSubseq(a, b)
    ensures IsSubseq([x] + a, [x] + b)
  {
    assert ([x] + a)[1..] == a && ([x] + b)[1..] == b;
  }

  /** Putting one more element in front of the bigger side keeps the relation. */
  lemma {:induction false} SubseqSkip<T>(x: T, a: seq<T>, b: seq<T>)
    requires IsSubseq(a, b)
    ensures IsSubseq(a, [x] + b)
    decreases |a| + |b| + 1
  {
    assert ([x] + b)[1..] == b;
    if a != [] && a[0] == x {
      SubseqWeaken(a, b);
    }
  }

  /** Dropping the head of the smaller side keeps the relation. */
  lemma {:induction false} SubseqWeaken<T>(a: seq<T>, b: seq<T>)
    requires a != [] && IsSubseq(a, b)
    ensures IsSubseq(a[1..], b)
    decreases |a| + |b|
  {
    if a[0] == b[0] {
      SubseqSkip(b[0], a[1..], b[1..]);
    } else {
      SubseqWeaken(a, b[1..]);
      SubseqSkip(b[0], a[1..], b[1..]);
    }
    assert b == [b[0]] + b[1..];
  }

  /** A selection of a selection is a selection. */
  lemma {:induction false} SubseqTrans<T>(a: seq<T>, b: seq<T>, c: seq<T>)
    requires IsSubseq(a, b) && IsSubseq(b, c)
    ensures IsSubseq(a, c)
    decreases |c|
  {
    if a != [] {
      assert c == [c[0]] + c[1..];
      if b[0] == c[0] {
        if a[0] == b[0] {
          SubseqTrans(a[1..], b[1..], c[1..]);
        } else {
          SubseqTrans(a, b[1..], c[1..]);
          SubseqSkip(c[0], a, c[1..]);
        }
      } else {
        SubseqTrans(a, b, c[1..]);
        SubseqSkip(c[0], a, c[1..]);
      }
    }
  }

  /** The result of `s.slice(0, n)` in JavaScript, a negative `n` counting from the end. */
  function Take<T>(s: seq<T>, n: int): (r: seq<T>)
    ensures |r| <= |s| && r == s[..|r|]
    ensures n >= 0 ==> |r| == if n < |s| then n else |s|
    ensures n < 0 ==> |r| == if |s| + n > 0 then |s| + n else 0
  {
    if n >= 0 then (if n < |s| then s[..n] else s)
    else if |s| + n > 0 then s[..|s| + n]
    else []
  }

  lemma {:induction false} PrefixIsSubseq<T>(s: seq<T>, k: nat)
    requires k <= |s|
    ensures IsSubseq(s[..k], s)
  {
    if k > 0 {
      PrefixIsSubseq(s[1..], k - 1);
      assert s[..k][1..] == s[1..][..k - 1];
    }
  }

  /** `s.filter(keep)` */
  function Filter<T>(s: seq<T>, keep: T -> bool): (r: seq<T>)
    ensures |r| <= |s|
  {
    if s == [] then [] else (if keep(s[0]) then [s[0]] else []) + Filter(s[1..], keep)
  }

  /** A filter keeps exactly the elements that pass, in their order and as often as they occur. */
  lemma {:induction false} FilterFacts<T>(s: seq<T>, keep: T -> bool)
    ensures IsSubseq(Filter(s, keep), s)
    ensures forall x :: x in Filter(s, keep) <==> x in s && keep(x)
    ensures forall x :: multiset(Filter(s, keep))[x] == if keep(x) then multiset(s)[x] else 0
  {
    if s != [] {
      FilterFacts(s[1..], keep);
      assert s == [s[0]] + s[1..];
      assert multiset(s) == multiset{s[0]} + multiset(s[1..]);
      if keep(s[0]) {
        assert Filter(s, keep) == [s[0]] + Filter(s[1..], keep);
        SubseqCons(s[0], Filter(s[1..], keep), s[1..]);
      } else {
        assert Filter(s, keep) == Filter(s[1..], keep);
        SubseqSkip(s[0], Filter(s[1..], keep), s[1..]);
      }
    }
  }

  /** Filtering with a test every element passes keeps everything. */
  lemma {:induction false} FilterAll<T>(s: seq<T>, keep: T -> bool)
    requires forall i :: 0 <= i < |s| ==> keep(s[i])
    ensures Filter(s, keep) == s
  {
    if s != [] {
      FilterAll(s[1..], keep);
    }
  }

  /** `Array.from(set)` for a `Set` filled from `s` in order: first occurrences, in order. */
  function Dedup(s: seq<string>): (r: seq<string>)
    ensures |r| <= |s|
  {
    if s == [] then []
    else
      var d := Dedup(s[..|s| - 1]);
      if s[|s| - 1] in d then d else d + [s[|s| - 1]]
  }

  /** The `Set` holds every element of `s` and nothing else, each once. */
  lemma {:induction false} DedupFacts(s: seq<string>)
    ensures forall x :: x in Dedup(s) <==> x in s
    ensures Distinct(Dedup(s))
  {
    if s != [] {
      DedupFacts(s[..|s| - 1]);
      assert forall x :: x in s <==> x in s[..|s| - 1] || x == s[|s| - 1];
    }
  }

  /** Adding one more element to a `Set`: nothing changes when it is already there, else it goes last. */
  lemma DedupSnoc(s: seq<string>, x: string)
    ensures Dedup(s + [x]) == if x in Dedup(s) then Dedup(s) else Dedup(s) + [x]
    ensures Dedup(s + [x]) == if x in s then Dedup(s) else Dedup(s) + [x]
  {
    assert (s + [x])[..|s|] == s;
    DedupFacts(s);
  }

  /** A `Set` filled from `first` and then `b[..i]` takes `b[i]` next: nothing changes when it is already there, else it goes last. */
  lemma DedupStep(first: seq<string>, b: seq<string>, i: int)
    requires 0 <= i < |b|
    ensures var d := Dedup(first + b[..i]);
            Dedup(first + b[..i + 1]) == if b[i] in d then d else d + [b[i]]
  {
    assert first + b[..i + 1] == (first + b[..i]) + [b[i]];
    DedupSnoc(first + b[..i], b[i]);
  }

  lemma DedupSingle(x: string)
    ensures Dedup([x]) == [x]
  {
    assert [x][..0] == [];
  }

  /** `x` occurs in `s` before any occurrence of `y`. */
  predicate OccursBefore<T(==)>(s: seq<T>, x: T, y: T) {
    exists k :: 0 <= k < |s| && s[k] == x && y !in s[..k]
  }

  /** The elements of `r` come in the order of their first occurrences in `s`. */
  predicate InFirstOccurrenceOrder<T(==)>(r: seq<T>, s: seq<T>) {
    forall i, j :: 0 <= i < j < |r| ==> OccursBefore(s, r[i], r[j])
  }

  /** A `Set` lists its elements in the order in which they were first added. */
  lemma {:induction false} DedupOrder(s: seq<string>)
    ensures InFirstOccurrenceOrder(Dedup(s), s)
  {
    if s != [] {
      var p := s[..|s| - 1];
      var x := s[|s| - 1];
      var d := Dedup(p);
      DedupOrder(p);
      DedupFacts(p);
      forall i, j | 0 <= i < j < |Dedup(s)| ensures OccursBefore(s, Dedup(s)[i], Dedup(s)[j]) {
        assert Dedup(s)[i] == d[i];
        assert d[i] in p;
        if j < |d| {
          assert Dedup(s)[j] == d[j];
          assert OccursBefore(p, d[i], d[j]);
          var k :| 0 <= k < |p| && p[k] == d[i] && d[j] !in p[..k];
          assert s[k] == p[k] && s[..k] == p[..k];
        } else {
          assert Dedup(s)[j] == x && x !in p;
          var k :| 0 <= k < |p| && p[k] == d[i];
          assert s[k] == p[k] && s[..k] == p[..k];
          assert x !in s[..k];
        }
      }
    }
  }

  /** Leaving elements out keeps the rest in their order. */
  lemma {:induction false} SubseqKeepsOrder<T>(a: seq<T>, b: seq<T>, s: seq<T>)
    requires IsSubseq(a, b) && InFirstOccurrenceOrder(b, s)
    ensures InFirstOccurrenceOrder(a, s)
    decreases |b|
  {
    if a != [] {
      assert InFirstOccurrenceOrder(b[1..], s) by {
        forall i, j | 0 <= i < j < |b[1..]| ensures OccursBefore(s, b[1..][i], b[1..][j]) {
          assert b[1..][i] == b[i + 1] && b[1..][j] == b[j + 1];
        }
      }
      if a[0] == b[0] {
        SubseqKeepsOrder(a[1..], b[1..], s);
        SubseqMembers(a[1..], b[1..]);
        forall i, j | 0 <= i < j < |a| ensures OccursBefore(s, a[i], a[j]) {
          assert a[j] == a[1..][j - 1];
          if i == 0 {
            assert a[j] in b[1..];
            var m :| 0 <= m < |b[1..]| && b[1..][m] == a[j];
            assert b[m + 1] == a[j];
          } else {
            assert a[i] == a[1..][i - 1];
          }
        }
      } else {
        SubseqKeepsOrder(a, b[1..], s);
      }
    }
  }

  /** The first element added to a `Set` stays first. */
  lemma {:induction false} DedupHead(s: seq<string>)
    requires s != []
    ensures Dedup(s) != [] && Dedup(s)[0] == s[0]
  {
    if |s| > 1 {
      DedupHead(s[..|s| - 1]);
    }
  }
}
