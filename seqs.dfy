/** Order-preserving selection over sequences: the model of `WHERE` and `DELETE ... WHERE`. */
module Seqs {
  import opened Results

  /** The elements of `s` that satisfy `p`, in their original order. */
  function Keep<T(==)>(s: seq<T>, p: T -> bool): (r: seq<T>)
    ensures |r| <= |s|
    ensures forall i :: 0 <= i < |r| ==> r[i] in s && p(r[i])
    ensures forall i :: 0 <= i < |s| && p(s[i]) ==> s[i] in r
    ensures multiset(r) <= multiset(s)
    ensures forall i :: 0 <= i < |s| && p(s[i]) ==> multiset(r)[s[i]] == multiset(s)[s[i]]
  {
    if s == [] then []
    else
      assert s == [s[0]] + s[1..];
      if p(s[0]) then [s[0]] + Keep(s[1..], p)
      else Keep(s[1..], p)
  }

  /** Selection distributes over concatenation. */
  lemma {:induction false} KeepAppend<T>(a: seq<T>, b: seq<T>, p: T -> bool)
    ensures Keep(a + b, p) == Keep(a, p) + Keep(b, p)
  {
    if a == [] {
      assert a + b == b;
    } else {
      assert (a + b)[1..] == a[1..] + b;
      KeepAppend(a[1..], b, p);
      if p(a[0]) {
        calc {
          Keep(a + b, p);
          [a[0]] + Keep(a[1..] + b, p);
          [a[0]] + (Keep(a[1..], p) + Keep(b, p));
          ([a[0]] + Keep(a[1..], p)) + Keep(b, p);
        }
      }
    }
  }

  /** Selecting a single element keeps it exactly when it satisfies `p`. */
  lemma KeepSingle<T>(x: T, p: T -> bool)
    ensures Keep([x], p) == if p(x) then [x] else []
  {
    assert [x][1..] == [];
  }

  /** `UPDATE ... SET f WHERE p`: every row stays in place, and exactly the rows satisfying `p` are rewritten by `f`. */
  function UpdateWhere<T>(s: seq<T>, p: T -> bool, f: T -> T): (r: seq<T>)
    ensures |r| == |s|
    ensures forall i :: 0 <= i < |s| && p(s[i]) ==> r[i] == f(s[i])
    ensures forall i :: 0 <= i < |s| && !p(s[i]) ==> r[i] == s[i]
  {
    if s == [] then []
    else [if p(s[0]) then f(s[0]) else s[0]] + UpdateWhere(s[1..], p, f)
  }

  /** `QueryRow`: the position of the first element satisfying `p`, if any. */
  function First<T>(s: seq<T>, p: T -> bool): (r: Option<nat>)
    ensures r.Some? ==> r.value < |s| && p(s[r.value])
    ensures r.Some? ==> forall j :: 0 <= j < r.value ==> !p(s[j])
    ensures r.None? ==> forall j :: 0 <= j < |s| ==> !p(s[j])
  {
    if s == [] then None
    else if p(s[0]) then Some(0)
    else match First(s[1..], p)
      case None => None
      case Some(k) => Some(k + 1)
  }

  /** Appending the first element that satisfies `p` makes it the one found. */
  lemma {:induction false} FirstAppended<T>(s: seq<T>, x: T, p: T -> bool)
    requires forall j :: 0 <= j < |s| ==> !p(s[j])
    requires p(x)
    ensures First(s + [x], p) == Some(|s|)
  {
    if s == [] {
      assert (s + [x])[0] == x;
    } else {
      assert (s + [x])[1..] == s[1..] + [x];
      FirstAppended(s[1..], x, p);
    }
  }
}
