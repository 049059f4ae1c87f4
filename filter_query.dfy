/**
 * The dynamic filter builder of the learning storage's listings: every filter with a
 * non-empty value appends `" and <column> = $<count>"` to the query, appends its value
 * to the argument list and increments `count`.
 */
module FilterQuery {
  import opened Seqs

  /** One optional equality filter: a column and the value asked for ("" when absent). */
  datatype Filter = Filter(column: string, value: string)

  function DigitChar(d: nat): char
    requires d < 10
  {
    "0123456789"[d]
  }

  /** The decimal rendering of `n`, as `%d` prints it. */
  function NatToString(n: nat): string
    decreases n
  {
    if n < 10 then [DigitChar(n)] else NatToString(n / 10) + [DigitChar(n % 10)]
  }

  /** The clause `fmt.Sprintf(" and <column> = $%d", k)`. */
  function Clause(column: string, k: nat): string
  {
    " and " + column + " = $" + NatToString(k)
  }

  /** The builder's test `len(value) > 0`. */
  predicate IsSet(f: Filter)
  {
    |f.value| > 0
  }

  /** The filters that contribute a clause, in the order they are checked. */
  function Present(fs: seq<Filter>): seq<Filter>
  {
    Keep(fs, IsSet)
  }

  /** The clause contributed by filter `f` when `count` is `n`. */
  function ClauseFor(f: Filter, n: nat): string
  {
    Clause(f.column, n)
  }

  /** `items` rendered one after the other, the `j`-th with number `k + j`. */
  function Numbered<T>(items: seq<T>, k: nat, render: (T, nat) -> string): string
  {
    if items == [] then "" else render(items[0], k) + Numbered(items[1..], k + 1, render)
  }

  /** The clauses of `ps`, numbered consecutively from `k`. */
  function Clauses(ps: seq<Filter>, k: nat): string
  {
    Numbered(ps, k, ClauseFor)
  }

  /** The argument list that goes with the clauses of `ps`. */
  function Values(ps: seq<Filter>): (vs: seq<string>)
    ensures |vs| == |ps|
    ensures forall i :: 0 <= i < |ps| ==> vs[i] == ps[i].value
  {
    if ps == [] then [] else [ps[0].value] + Values(ps[1..])
  }

  /** Rendering one more item at the end gives it the next number. */
  lemma {:induction false} NumberedAppend<T>(items: seq<T>, x: T, k: nat, render: (T, nat) -> string)
    ensures Numbered(items + [x], k, render) == Numbered(items, k, render) + render(x, k + |items|)
  {
    if items == [] {
      assert [x][1..] == [];
    } else {
      assert (items + [x])[1..] == items[1..] + [x];
      NumberedAppend(items[1..], x, k + 1, render);
    }
  }

  /** The same, after a common prefix. */
  lemma NumberedStep<T>(prefix: string, items: seq<T>, x: T, k: nat, render: (T, nat) -> string)
    ensures prefix + Numbered(items, k, render) + render(x, k + |items|) == prefix + Numbered(items + [x], k, render)
  {
    NumberedAppend(items, x, k, render);
  }

  /** The `i`-th item is rendered with number `k + i`, between the items before and after it. */
  lemma {:induction false} NumberedAt<T>(items: seq<T>, k: nat, i: nat, render: (T, nat) -> string)
    requires i < |items|
    ensures Numbered(items, k, render) ==
            Numbered(items[..i], k, render) + render(items[i], k + i) + Numbered(items[i + 1..], k + i + 1, render)
  {
    if i == 0 {
      assert items[..0] == [];
      assert items[1..] == items[i + 1..];
    } else {
      var tail := items[1..];
      NumberedAt(tail, k + 1, i - 1, render);
      assert tail[..i - 1] == items[..i][1..];
      assert tail[i - 1] == items[i];
      assert tail[i..] == items[i + 1..];
    }
  }

  /**
   * Placeholders are consecutive: in the clauses numbered from `k`, the `i`-th present
   * filter's clause carries placeholder `$(k + i)`, between the clauses before and after it.
   */
  lemma ClauseAt(ps: seq<Filter>, k: nat, i: nat)
    requires i < |ps|
    ensures Clauses(ps, k) ==
            Clauses(ps[..i], k) + Clause(ps[i].column, k + i) + Clauses(ps[i + 1..], k + i + 1)
  {
    NumberedAt(ps, k, i, ClauseFor);
  }

  /** Testing one more filter: it joins the present ones exactly when it has a value. */
  lemma PresentAppend(seen: seq<Filter>, f: Filter)
    ensures Present(seen + [f]) == if IsSet(f) then Present(seen) + [f] else Present(seen)
  {
    KeepAppend(seen, [f], IsSet);
    KeepSingle(f, IsSet);
  }

  /** One more present filter adds its value at the end of the arguments. */
  lemma {:induction false} ValuesAppend(ps: seq<Filter>, f: Filter)
    ensures Values(ps + [f]) == Values(ps) + [f.value]
  {
    var vs := Values(ps + [f]);
    assert |vs| == |Values(ps) + [f.value]|;
    forall i | 0 <= i < |vs| ensures vs[i] == (Values(ps) + [f.value])[i] {
      assert (ps + [f])[i] == if i < |ps| then ps[i] else f;
    }
  }

  /** A filter with a value adds the clause numbered `count` and its value to the arguments. */
  lemma StepSet(base: string, seen: seq<Filter>, f: Filter, query: string, args: seq<string>, count: nat)
    requires IsSet(f)
    requires query == base + Clauses(Present(seen), 1)
    requires args == Values(Present(seen))
    requires count == |args| + 1
    ensures query + ClauseFor(f, count) == base + Clauses(Present(seen + [f]), 1)
    ensures args + [f.value] == Values(Present(seen + [f]))
  {
    var done := Present(seen);
    assert Present(seen + [f]) == done + [f] by {
      PresentAppend(seen, f);
    }
    assert args + [f.value] == Values(done + [f]) by {
      ValuesAppend(done, f);
    }
    assert query + ClauseFor(f, count) == base + Clauses(done + [f], 1) by {
      assert count == 1 + |done|;
      NumberedStep(base, done, f, 1, ClauseFor);
    }
  }

  /**
   * The builder: start from `base` with `count := 1` and test each filter in turn. The
   * query gets one clause per present filter, numbered from `$1`, and `len(arr) == count - 1`.
   */
  method Build(base: string, fs: seq<Filter>) returns (query: string, args: seq<string>, count: nat)
    ensures query == base + Clauses(Present(fs), 1)
    ensures args == Values(Present(fs))
    ensures count == |args| + 1
  {
    query, args, count := base, [], 1;
    for i := 0 to |fs|
      invariant query == base + Clauses(Present(fs[..i]), 1)
      invariant args == Values(Present(fs[..i]))
      invariant count == |args| + 1
    {
      var f := fs[i];
      assert fs[..i + 1] == fs[..i] + [f];
      if |f.value| > 0 {
        StepSet(base, fs[..i], f, query, args, count);
        query := query + ClauseFor(f, count);
        count := count + 1;
        args := args + [f.value];
      } else {
        PresentAppend(fs[..i], f);
      }
    }
    assert fs[..|fs|] == fs;
  }
}
