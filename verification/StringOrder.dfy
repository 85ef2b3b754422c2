/** White space, the order of strings and sorted lists of distinct strings. */
module StringOrder {

  /** The characters Unicode calls white space. */
  predicate Space(c: char) {
    || '\t' <= c <= '\r' || c == ' ' || c == '\U{0085}' || c == '\U{00A0}' || c == '\U{1680}'
    || '\U{2000}' <= c <= '\U{200A}' || c == '\U{2028}' || c == '\U{2029}' || c == '\U{202F}' || c == '\U{205F}'
    || c == '\U{3000}'
  }

  /** Nothing is left of it once white space is trimmed. */
  predicate Blank(s: string) { forall i | 0 <= i < |s| :: Space(s[i]) }

  /** Lexicographic order by character. */
  predicate Less(a: string, b: string) {
    b != [] && (a == [] || a[0] < b[0] || (a[0] == b[0] && Less(a[1..], b[1..])))
  }

  lemma {:induction false} LessTransitive(a: string, b: string, c: string)
    requires Less(a, b) && Less(b, c)
    ensures Less(a, c)
  {
    if a != [] && a[0] == b[0] == c[0] {
      LessTransitive(a[1..], b[1..], c[1..]);
    }
  }

  lemma {:induction false} LessTotal(a: string, b: string)
    ensures Less(a, b) || Less(b, a) || a == b
  {
    if a != [] && b != [] && a[0] == b[0] {
      LessTotal(a[1..], b[1..]);
      if a[1..] == b[1..] {
        assert a == [a[0]] + a[1..] && b == [b[0]] + b[1..];
      }
    }
  }

  lemma {:induction false} LessIrreflexive(a: string)
    ensures !Less(a, a)
  {
    if a != [] {
      LessIrreflexive(a[1..]);
    }
  }

  /** Strictly increasing, hence without repeats. */
  predicate Increasing(s: seq<string>) { forall i, j | 0 <= i < j < |s| :: Less(s[i], s[j]) }

  function Members(s: seq<string>): set<string> { set x | x in s }

  /** Sorted lists of the same strings are the same list. */
  lemma {:induction false} SortedIsUnique(a: seq<string>, b: seq<string>)
    requires Increasing(a) && Increasing(b) && Members(a) == Members(b)
    ensures a == b
  {
    NoMembers(a);
    NoMembers(b);
    if a != [] {
      SameFirst(a, b);
      TailMembers(a);
      TailMembers(b);
      SortedIsUnique(a[1..], b[1..]);
      assert a == [a[0]] + a[1..] && b == [b[0]] + b[1..];
    }
  }

  lemma NoMembers(a: seq<string>)
    ensures a == [] <==> Members(a) == {}
  {
    if a != [] {
      assert a[0] in Members(a);
    }
  }

  lemma SameFirst(a: seq<string>, b: seq<string>)
    requires Increasing(a) && Increasing(b) && Members(a) == Members(b) && a != [] && b != []
    ensures a[0] == b[0]
  {
    assert a[0] in Members(b) && b[0] in Members(a);
    var i :| 0 <= i < |b| && b[i] == a[0];
    var j :| 0 <= j < |a| && a[j] == b[0];
    if i > 0 && j > 0 {
      LessTransitive(a[0], b[0], a[0]);
      LessIrreflexive(a[0]);
    }
  }

  lemma TailMembers(a: seq<string>)
    requires Increasing(a) && a != []
    ensures Increasing(a[1..]) && Members(a[1..]) == Members(a) - {a[0]}
  {
    LessIrreflexive(a[0]);
    assert a == [a[0]] + a[1..];
    forall x | x in a[1..]
      ensures x != a[0]
    {
      var i :| 0 <= i < |a[1..]| && a[1..][i] == x;
      assert Less(a[0], a[i + 1]);
    }
  }

  lemma {:induction false} SortedExists(names: set<string>)
    ensures exists s :: Increasing(s) && Members(s) == names
  {
    if names == {} {
      assert Increasing([]) && Members([]) == names;
    } else {
      var x :| x in names;
      SortedExists(names - {x});
      var s :| Increasing(s) && Members(s) == names - {x};
      var k := PlaceOf(s, x, 0);
      InsertSorted(s, x, k);
      assert names == (names - {x}) + {x};
    }
  }

  ghost function PlaceOf(s: seq<string>, x: string, from: nat): (k: nat)
    requires from <= |s| && forall i | 0 <= i < from :: Less(s[i], x)
    ensures k <= |s| && (forall i | 0 <= i < k :: Less(s[i], x)) && (k < |s| ==> !Less(s[k], x))
    decreases |s| - from
  {
    if from < |s| && Less(s[from], x) then PlaceOf(s, x, from + 1) else from
  }

  /** The sorted list of a set of strings. */
  ghost function Sorted(names: set<string>): (s: seq<string>)
    ensures Increasing(s) && Members(s) == names
  {
    SortedExists(names);
    var s :| Increasing(s) && Members(s) == names;
    s
  }

  method SortStrings(names: set<string>) returns (out: seq<string>)
    ensures out == Sorted(names)
  {
    out := [];
    var rest := names;
    while rest != {}
      invariant rest <= names && Increasing(out) && Members(out) == names - rest
      decreases |rest|
    {
      var x :| x in rest;
      out := Insert(out, x);
      rest := rest - {x};
    }
    SortedIsUnique(out, Sorted(names));
  }

  method Insert(s: seq<string>, x: string) returns (out: seq<string>)
    requires Increasing(s) && x !in Members(s)
    ensures Increasing(out) && Members(out) == Members(s) + {x}
  {
    var k := 0;
    while k < |s| && Less(s[k], x)
      invariant k <= |s|
      invariant forall i | 0 <= i < k :: Less(s[i], x)
    {
      k := k + 1;
    }
    out := s[..k] + [x] + s[k..];
    InsertSorted(s, x, k);
  }

  lemma InsertSorted(s: seq<string>, x: string, k: nat)
    requires Increasing(s) && x !in Members(s) && k <= |s|
    requires forall i | 0 <= i < k :: Less(s[i], x)
    requires k < |s| ==> !Less(s[k], x)
    ensures Increasing(s[..k] + [x] + s[k..]) && Members(s[..k] + [x] + s[k..]) == Members(s) + {x}
  {
    var out := s[..k] + [x] + s[k..];
    assert s == s[..k] + s[k..];
    forall i | k <= i < |s|
      ensures Less(x, s[i])
    {
      LessTotal(s[k], x);
      assert s[k] in Members(s);
      if k < i {
        LessTransitive(x, s[k], s[i]);
      }
    }
    forall i, j | 0 <= i < j < |out|
      ensures Less(out[i], out[j])
    {
      if i < k && j > k {
        assert out[i] == s[i] && out[j] == s[j - 1];
      }
    }
  }
}
