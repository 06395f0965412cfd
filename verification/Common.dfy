/** Small shared vocabulary: options, bytes and the ascending enumeration of a finite set. */
module Common {

  datatype Option<+T> = None | Some(value: T)

  type byte = x: int | 0 <= x < 256

  function Min(a: int, b: int): int { if a <= b then a else b }

  function MaxReal(a: real, b: real): real { if a >= b then a else b }

  function MinReal(a: real, b: real): real { if a <= b then a else b }

  ghost predicate StrictlyAscending(s: seq<nat>) {
    forall i, j :: 0 <= i < j < |s| ==> s[i] < s[j]
  }

  ghost predicate NoDuplicates<T>(s: seq<T>) {
    forall i, j :: 0 <= i < j < |s| ==> s[i] != s[j]
  }

  /** The least element of a non-empty finite set. */
  lemma {:induction false} MinimumExists(s: set<nat>) returns (m: nat)
    requires s != {}
    ensures m in s
    ensures forall x :: x in s ==> m <= x
  {
    m :| m in s;
    var rest := s - {m};
    if rest != {} {
      var b := MinimumExists(rest);
      if b < m {
        m := b;
      }
      assert s == rest + {m} || m in rest;
    }
    forall x | x in s ensures m <= x {
      assert x in rest || x !in rest;
    }
  }

  function Least(s: set<nat>): (m: nat)
    requires s != {}
    ensures m in s
    ensures forall x :: x in s ==> m <= x
  {
    assert exists m :: m in s && forall x :: x in s ==> m <= x by { var m := MinimumExists(s); }
    var m :| m in s && forall x :: x in s ==> m <= x;
    m
  }

  /** The elements of a finite set in ascending order: how a BTreeSet or the keys of a BTreeMap iterate. */
  function Sorted(s: set<nat>): (r: seq<nat>)
    ensures StrictlyAscending(r)
    ensures forall x :: x in r <==> x in s
    ensures |r| == |s|
  {
    if s == {} then []
    else
      var m := Least(s);
      var tail := Sorted(s - {m});
      LeastFirst(m, tail);
      [m] + tail
  }

  lemma LeastFirst(m: nat, tail: seq<nat>)
    requires StrictlyAscending(tail) && forall x :: x in tail ==> m < x
    ensures StrictlyAscending([m] + tail)
  {
    var all := [m] + tail;
    forall i, j | 0 <= i < j < |all| ensures all[i] < all[j] {
      assert all[j] == tail[j-1] && tail[j-1] in tail;
      if i > 0 { assert all[i] == tail[i-1]; }
    }
  }

  lemma MultisetWithout<T>(s: seq<T>, k: nat)
    requires k < |s|
    ensures multiset(s[..k] + s[k+1..]) + multiset{s[k]} == multiset(s)
  {
    assert s == s[..k] + ([s[k]] + s[k+1..]);
  }

  /** Two arrangements of the same elements: the head of one can be taken out of the other. */
  lemma HeadOfPermutation<T>(a: seq<T>, b: seq<T>) returns (k: nat)
    requires multiset(a) == multiset(b) && a != []
    ensures k < |b| && b[k] == a[0]
    ensures multiset(a[1..]) == multiset(b[..k] + b[k+1..])
  {
    MultisetWithout(a, 0);
    assert a[..0] + a[1..] == a[1..];
    assert a[0] in multiset(b);
    k :| 0 <= k < |b| && b[k] == a[0];
    MultisetWithout(b, k);
    SameRest(multiset(a[1..]), multiset(b[..k] + b[k+1..]), a[0]);
  }

  lemma SameRest<T>(a: multiset<T>, b: multiset<T>, x: T)
    requires a + multiset{x} == b + multiset{x}
    ensures a == b
  {
    assert a == (a + multiset{x}) - multiset{x} && b == (b + multiset{x}) - multiset{x};
  }

  // Binary logarithms of whole numbers

  function FloorLog2(n: nat): (k: nat)
    requires n >= 1
    ensures Power2(k) <= n < Power2(k + 1)
  {
    if n == 1 then 0
    else
      var k := FloorLog2(n / 2);
      assert Power2(k + 1) == 2 * Power2(k) && Power2(k + 2) == 2 * Power2(k + 1);
      1 + k
  }

  function Power2(k: nat): nat { if k == 0 then 1 else 2 * Power2(k - 1) }

  // Filtered lists

  /** `kept` are the elements of `all` at the ascending positions `at`, which are exactly those that pass. */
  ghost predicate PickedAt<T(!new)>(all: seq<T>, kept: seq<T>, at: seq<nat>, keep: T -> bool) {
    && StrictlyAscending(at) && |at| == |kept|
    && (forall k :: 0 <= k < |at| ==> at[k] < |all| && kept[k] == all[at[k]])
    && (forall i :: 0 <= i < |all| ==> (i in at <==> keep(all[i])))
  }

  /** `kept` holds exactly the elements of `all` that pass, each as often and in the same order. */
  ghost predicate Filters<T(!new)>(all: seq<T>, kept: seq<T>, keep: T -> bool) {
    exists at: seq<nat> :: PickedAt(all, kept, at, keep)
  }

  lemma FiltersNothing<T(!new)>(keep: T -> bool)
    ensures Filters([], [], keep)
  {
    assert PickedAt([], [], [], keep);
  }

  lemma FiltersOneMore<T(!new)>(all: seq<T>, kept: seq<T>, x: T, keep: T -> bool)
    requires Filters(all, kept, keep)
    ensures Filters(all + [x], if keep(x) then kept + [x] else kept, keep)
  {
    hide PickedAt;
    var at: seq<nat> :| PickedAt(all, kept, at, keep);
    if keep(x) { PickedToo(all, kept, at, x, keep); } else { PassedOver(all, kept, at, x, keep); }
  }

  lemma PassedOver<T(!new)>(all: seq<T>, kept: seq<T>, at: seq<nat>, x: T, keep: T -> bool)
    requires PickedAt(all, kept, at, keep) && !keep(x)
    ensures PickedAt(all + [x], kept, at, keep)
  {
    hide StrictlyAscending;
    var more := all + [x];
    forall i | i in at ensures i < |all| { var k :| 0 <= k < |at| && at[k] == i; }
    forall i | 0 <= i < |more| ensures i in at <==> keep(more[i]) {
      if i < |all| { assert more[i] == all[i]; }
    }
  }

  lemma PickedToo<T(!new)>(all: seq<T>, kept: seq<T>, at: seq<nat>, x: T, keep: T -> bool)
    requires PickedAt(all, kept, at, keep) && keep(x)
    ensures PickedAt(all + [x], kept + [x], at + [|all|], keep)
  {
    AppendGreatest(at, |all|);
    hide StrictlyAscending;
    var more := all + [x];
    forall i | 0 <= i < |more| ensures i in at + [|all|] <==> keep(more[i]) {
      if i < |all| { assert more[i] == all[i]; }
    }
  }

  lemma AppendGreatest(s: seq<nat>, x: nat)
    requires StrictlyAscending(s) && forall i :: 0 <= i < |s| ==> s[i] < x
    ensures StrictlyAscending(s + [x]) && forall y :: y in s + [x] <==> y in s || y == x
  {
  }

  // Multiplication of reals, one fact at a time.

  lemma Nonnegative(a: real, b: real)
    requires a >= 0.0 && b >= 0.0
    ensures a * b >= 0.0
  {
  }

  lemma Scale(a: real, b: real, k: real)
    requires a <= b && k >= 0.0
    ensures a * k <= b * k
  {
    Nonnegative(b - a, k);
  }

  lemma ScaleStrictly(a: real, b: real, k: real)
    requires a < b && k > 0.0
    ensures a * k < b * k
  {
    assert (b - a) * k > 0.0;
  }

  lemma Distribute(a: real, b: real, k: real)
    ensures (a + b) * k == a * k + b * k
  {
  }

  lemma Reassociate(a: real, b: real, c: real)
    ensures a * (b * c) == (a * c) * b
  {
  }

  lemma Multiply(a: real, b: real, k: real)
    requires a == b
    ensures a * k == b * k
  {
  }
}
