/** Walking a list with a cursor while deleting from it. */
module Lists {

  /** The list is the part kept so far followed by what is still to be visited from `was`:
      what the cursor sees, and what deleting or replacing there leaves. */
  lemma AtCursor<T>(was: seq<T>, k: nat, kept: seq<T>, list: seq<T>)
    requires k < |was| && list == kept + was[k..]
    ensures |kept| < |list| && list[|kept|] == was[k]
    ensures list[..|kept|] + list[|kept| + 1..] == kept + was[k + 1..]
    ensures list == (kept + [was[k]]) + was[k + 1..]
    ensures forall x :: list[|kept| := x] == (kept + [x]) + was[k + 1..]
    ensures was[..k + 1] == was[..k] + [was[k]] && was[..k + 1][..k] == was[..k]
  {
    assert was[k..] == [was[k]] + was[k + 1..];
  }

  function InsertAt<T>(list: seq<T>, k: nat, x: T): seq<T>
    requires k <= |list|
  {
    list[..k] + [x] + list[k..]
  }

  lemma InsertPermutes<T>(list: seq<T>, k: nat, x: T)
    requires k <= |list|
    ensures multiset(InsertAt(list, k, x)) == multiset(list) + multiset{x}
  {
    assert list[..k] + list[k..] == list;
  }

  function Reverse<T>(s: seq<T>): seq<T> {
    seq(|s|, i requires 0 <= i < |s| => s[|s| - 1 - i])
  }

  lemma ReverseInserted<T>(list: seq<T>, k: nat, x: T)
    requires k <= |list|
    ensures Reverse(InsertAt(list, k, x)) == InsertAt(Reverse(list), |list| - k, x)
  {
    var r, q := Reverse(InsertAt(list, k, x)), InsertAt(Reverse(list), |list| - k, x);
    forall i | 0 <= i < |r| ensures r[i] == q[i] {
      var j := |list| - i;
      assert r[i] == InsertAt(list, k, x)[j];
      if j < k {
        assert q[i] == Reverse(list)[|list| - k..][i - (|list| - k) - 1];
      }
    }
  }

  /** The elements that `f` accepts, in order. */
  function Select<T>(s: seq<T>, f: T -> bool): seq<T> {
    if s == [] then [] else Select(s[..|s| - 1], f) + if f(s[|s| - 1]) then [s[|s| - 1]] else []
  }

  lemma {:induction false} SelectExactly<T>(s: seq<T>, f: T -> bool)
    ensures forall x :: x in Select(s, f) <==> x in s && f(x)
  {
    if s != [] {
      assert s == s[..|s| - 1] + [s[|s| - 1]];
      SelectExactly(s[..|s| - 1], f);
    }
  }

  /** A cursor has visited the first `k` of `was` and deleted those it does not keep: it is
      at place `i` of `list`. */
  ghost predicate Sifted<T>(was: seq<T>, keep: T -> bool, k: nat, i: nat, list: seq<T>) {
    k <= |was| && i == |Select(was[..k], keep)| && list == Select(was[..k], keep) + was[k..]
  }

  lemma SiftedNext<T>(was: seq<T>, keep: T -> bool, k: nat, i: nat, list: seq<T>)
    requires Sifted(was, keep, k, i, list) && i < |list|
    ensures k < |was| && list[i] == was[k]
    ensures if keep(was[k]) then Sifted(was, keep, k + 1, i + 1, list)
            else Sifted(was, keep, k + 1, i, list[..i] + list[i + 1..])
  {
    AtCursor(was, k, Select(was[..k], keep), list);
    SelectNext(was, keep, k);
  }

  lemma SiftedAll<T>(was: seq<T>, keep: T -> bool, k: nat, i: nat, list: seq<T>)
    requires Sifted(was, keep, k, i, list) && i >= |list|
    ensures k == |was| && list == Select(was, keep)
  {
    assert was[..|was|] == was;
    assert |list| == i + |was[k..]|;
    assert Select(was, keep) + [] == Select(was, keep);
  }

  lemma SelectNext<T>(s: seq<T>, f: T -> bool, k: nat)
    requires k < |s|
    ensures Select(s[..k + 1], f) == if f(s[k]) then Select(s[..k], f) + [s[k]] else Select(s[..k], f)
  {
    assert s[..k + 1][..k] == s[..k];
  }

  lemma SelectAppended<T>(s: seq<T>, x: T, f: T -> bool)
    ensures Select(s + [x], f) == if f(x) then Select(s, f) + [x] else Select(s, f)
  {
    assert (s + [x])[..|s|] == s;
  }

  /** Selecting twice, in either order. */
  lemma {:induction false} SelectSwaps<T>(s: seq<T>, f: T -> bool, g: T -> bool)
    ensures Select(Select(s, f), g) == Select(Select(s, g), f)
  {
    if s != [] {
      var init, x := s[..|s| - 1], s[|s| - 1];
      assert s == init + [x];
      SelectSwaps(init, f, g);
      SelectAppended(init, x, f);
      SelectAppended(init, x, g);
      SelectAppended(Select(init, f), x, g);
      SelectAppended(Select(init, g), x, f);
    }
  }

  lemma {:induction false} SelectConcat<T>(a: seq<T>, b: seq<T>, f: T -> bool)
    ensures Select(a + b, f) == Select(a, f) + Select(b, f)
  {
    if b == [] {
      assert a + b == a;
    } else {
      assert (a + b)[..|a + b| - 1] == a + b[..|b| - 1];
      SelectConcat(a, b[..|b| - 1], f);
    }
  }

  lemma {:induction false} SelectNone<T>(s: seq<T>, f: T -> bool)
    requires forall i :: 0 <= i < |s| ==> !f(s[i])
    ensures Select(s, f) == []
  {
    if s != [] {
      SelectNone(s[..|s| - 1], f);
    }
  }

  lemma SelectOne<T>(x: T, f: T -> bool)
    ensures Select([x], f) == if f(x) then [x] else []
  {
    assert [x][..0] == [];
  }

  lemma SelectAround<T>(a: seq<T>, x: T, b: seq<T>, f: T -> bool)
    ensures Select(a + [x] + b, f) == Select(a, f) + (if f(x) then [x] else []) + Select(b, f)
  {
    SelectConcat(a + [x], b, f);
    SelectConcat(a, [x], f);
    SelectOne(x, f);
  }

  lemma SwapEmpty<T>(a: seq<T>, b: seq<T>, c: seq<T>)
    requires b == [] || c == []
    ensures a + b + c == (a + c) + b
  {
  }

  /** Inserting before elements that are not selected when `x` is. */
  lemma SelectBefore<T>(a: seq<T>, x: T, b: seq<T>, f: T -> bool)
    requires f(x) ==> forall j :: 0 <= j < |b| ==> !f(b[j])
    ensures Select(a + [x] + b, f) == Select(a + b, f) + if f(x) then [x] else []
  {
    SelectAround(a, x, b, f);
    SelectConcat(a, b, f);
    if f(x) {
      SelectNone(b, f);
    }
    SwapEmpty(Select(a, f), if f(x) then [x] else [], Select(b, f));
  }

}
