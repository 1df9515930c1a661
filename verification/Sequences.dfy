/** Sequences of values as they are given to callbacks and the database. */
module Sequences {
  lemma Regroup<T>(a: seq<T>, b: seq<T>, c: seq<T>)
    ensures a + b + c == a + (b + c)
  {
  }

  /** A sequence of values with adjacent repeats removed, `before` being the value already known. */
  function Changes<T(==)>(before: T, values: seq<T>): seq<T> {
    if values == [] then []
    else if values[0] == before then Changes(before, values[1..])
    else [values[0]] + Changes(values[0], values[1..])
  }

  /** Nothing in it repeats, it ends where the values end, and it drops repeats only. */
  lemma {:induction false} ChangesMeaning<T>(before: T, values: seq<T>)
    ensures var cs := [before] + Changes(before, values);
            && (forall i: nat | i + 1 < |cs| :: cs[i] != cs[i + 1])
            && cs[|cs| - 1] == ([before] + values)[|values|]
            && (forall v :: v in cs <==> v in [before] + values)
  {
    if values != [] {
      var first, rest := values[0], values[1..];
      ChangesMeaning(first, rest);
      assert [before] + values == [before] + ([first] + rest);
      if first != before {
        assert [before] + Changes(before, values) == [before] + ([first] + Changes(first, rest));
      }
    }
  }

  lemma {:induction false} ChangesAppend<T>(before: T, xs: seq<T>, ys: seq<T>)
    ensures Changes(before, xs + ys) == Changes(before, xs) + Changes(([before] + xs)[|xs|], ys)
  {
    if xs == [] {
      assert xs + ys == ys;
    } else {
      assert (xs + ys)[1..] == xs[1..] + ys;
      assert ([before] + xs)[|xs|] == ([xs[0]] + xs[1..])[|xs| - 1];
      ChangesAppend(xs[0], xs[1..], ys);
    }
  }

  lemma ChangesJoin<T>(a: seq<T>, b: seq<T>, c: seq<T>, before: T, mid: T, xs: seq<T>, ys: seq<T>)
    requires b == a + Changes(before, xs) && c == b + Changes(mid, ys) && mid == ([before] + xs)[|xs|]
    ensures c == a + Changes(before, xs + ys)
  {
    ChangesAppend(before, xs, ys);
    Regroup(a, Changes(before, xs), Changes(mid, ys));
  }
}
