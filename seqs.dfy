/** `stream().filter(...)` over a list, and what it preserves. */
module Seqs {

  /** The elements of `s` that satisfy `f`, in their original order. */
  function Keep<T>(s: seq<T>, f: T -> bool): (r: seq<T>)
    ensures |r| <= |s|
    ensures forall x :: x in r ==> x in s && f(x)
  {
    if s == [] then [] else (if f(s[0]) then [s[0]] else []) + Keep(s[1..], f)
  }

  /** `a` is obtained from `b` by deleting elements, without reordering. */
  ghost predicate Subseq<T>(a: seq<T>, b: seq<T>)
    decreases |b|
  {
    a == [] || (b != [] && ((a[0] == b[0] && Subseq(a[1..], b[1..])) || Subseq(a, b[1..])))
  }

  /** Nothing that satisfies `f` is dropped. */
  lemma {:induction false} KeepMembers<T>(s: seq<T>, f: T -> bool)
    ensures forall x :: x in Keep(s, f) <==> x in s && f(x)
  {
    if s != [] {
      KeepMembers(s[1..], f);
      assert s == [s[0]] + s[1..];
    }
  }

  /** Filtering keeps the original order: it is a subsequence. */
  lemma {:induction false} KeepIsSubseq<T>(s: seq<T>, f: T -> bool)
    ensures Subseq(Keep(s, f), s)
  {
    if s != [] {
      KeepIsSubseq(s[1..], f);
      var rest := Keep(s[1..], f);
      if f(s[0]) {
        assert Keep(s, f) == [s[0]] + rest;
        assert Keep(s, f)[0] == s[0] && Keep(s, f)[1..] == rest;
      } else {
        assert Keep(s, f) == rest;
      }
    }
  }

  /** Filtering distributes over concatenation. */
  lemma {:induction false} KeepAppend<T>(a: seq<T>, b: seq<T>, f: T -> bool)
    ensures Keep(a + b, f) == Keep(a, f) + Keep(b, f)
  {
    if a != [] {
      KeepAppend(a[1..], b, f);
      assert (a + b)[0] == a[0] && (a + b)[1..] == a[1..] + b;
      var head := if f(a[0]) then [a[0]] else [];
      calc {
        Keep(a + b, f);
        head + Keep(a[1..] + b, f);
        head + (Keep(a[1..], f) + Keep(b, f));
        (head + Keep(a[1..], f)) + Keep(b, f);
      }
    } else {
      assert a + b == b;
    }
  }

  /** A filter that every element passes leaves the list as it is. */
  lemma {:induction false} KeepEverything<T>(s: seq<T>, f: T -> bool)
    requires forall x :: x in s ==> f(x)
    ensures Keep(s, f) == s
  {
    if s != [] {
      KeepEverything(s[1..], f);
    }
  }

  /** A filter that no element passes leaves nothing. */
  lemma {:induction false} KeepNothing<T>(s: seq<T>, f: T -> bool)
    requires forall x :: x in s ==> !f(x)
    ensures Keep(s, f) == []
  {
    if s != [] {
      KeepNothing(s[1..], f);
    }
  }

  /** Two filters that agree on every element give the same list. */
  lemma {:induction false} KeepSameFilter<T>(s: seq<T>, f: T -> bool, g: T -> bool)
    requires forall x :: x in s ==> f(x) == g(x)
    ensures Keep(s, f) == Keep(s, g)
  {
    if s != [] {
      KeepSameFilter(s[1..], f, g);
    }
  }

  /** Two filters in a row are one filter by their conjunction `h`. */
  lemma {:induction false} KeepTwice<T>(s: seq<T>, f: T -> bool, g: T -> bool, h: T -> bool)
    requires forall x :: x in s ==> h(x) == (f(x) && g(x))
    ensures Keep(Keep(s, f), g) == Keep(s, h)
  {
    if s != [] {
      KeepTwice(s[1..], f, g, h);
      var rest := Keep(s[1..], f);
      if f(s[0]) {
        assert Keep(s, f) == [s[0]] + rest;
        KeepAppend([s[0]], rest, g);
      } else {
        assert Keep(s, f) == rest;
      }
    }
  }

  /** Filtering a list that is in ascending `key` order leaves it in that order. */
  lemma {:induction false} KeepAscending<T>(s: seq<T>, f: T -> bool, key: T -> int)
    requires forall i, j :: 0 <= i < j < |s| ==> key(s[i]) < key(s[j])
    ensures forall i, j :: 0 <= i < j < |Keep(s, f)| ==> key(Keep(s, f)[i]) < key(Keep(s, f)[j])
  {
    if s != [] {
      var tail := s[1..];
      var rest := Keep(tail, f);
      KeepAscending(tail, f, key);
      if f(s[0]) {
        var r := Keep(s, f);
        assert r == [s[0]] + rest;
        forall j | 0 < j < |r| ensures key(s[0]) < key(r[j]) {
          assert r[j] == rest[j - 1];
          assert r[j] in tail;
        }
      } else {
        assert Keep(s, f) == rest;
      }
    }
  }

  /** `items.stream().map(f).collect(toList())`. */
  function MapSeq<T, U>(s: seq<T>, f: T -> U): (r: seq<U>)
    ensures |r| == |s|
    ensures forall i :: 0 <= i < |s| ==> r[i] == f(s[i])
    ensures forall y :: y in r ==> exists x :: x in s && f(x) == y
  {
    seq(|s|, i requires 0 <= i < |s| => f(s[i]))
  }
}
