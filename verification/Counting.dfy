/** How many elements of a sequence have a property. */
module Counting {

  function Number<T>(s: seq<T>, has: T -> bool): nat {
    if s == [] then 0 else Number(s[..|s| - 1], has) + (if has(s[|s| - 1]) then 1 else 0)
  }

  lemma {:induction false} NumberCons<T>(x: T, s: seq<T>, has: T -> bool)
    ensures Number([x] + s, has) == (if has(x) then 1 else 0) + Number(s, has)
  {
    if s == [] {
      assert [x] + s == [x] && [x][..0] == [];
    } else {
      assert ([x] + s)[..|s|] == [x] + s[..|s| - 1];
      NumberCons(x, s[..|s| - 1], has);
    }
  }

  lemma {:induction false} NumberSnoc<T>(s: seq<T>, x: T, has: T -> bool)
    ensures Number(s + [x], has) == Number(s, has) + (if has(x) then 1 else 0)
  {
    assert (s + [x])[..|s|] == s;
  }

  lemma {:induction false} NumberUpdate<T>(s: seq<T>, i: nat, x: T, has: T -> bool)
    requires i < |s|
    ensures Number(s[i := x], has) == Number(s, has) - (if has(s[i]) then 1 else 0) + (if has(x) then 1 else 0)
  {
    var n := |s| - 1;
    if i == n {
      assert s[i := x][..n] == s[..n];
    } else {
      assert s[i := x][..n] == s[..n][i := x];
      NumberUpdate(s[..n], i, x, has);
    }
  }

  lemma {:induction false} NumberNone<T>(s: seq<T>, has: T -> bool)
    requires forall i :: 0 <= i < |s| ==> !has(s[i])
    ensures Number(s, has) == 0
  {
    if s != [] { NumberNone(s[..|s| - 1], has); }
  }

  lemma {:induction false} NumberWeaker<T>(s: seq<T>, has: T -> bool, more: T -> bool)
    requires forall x <- s :: has(x) ==> more(x)
    ensures Number(s, has) <= Number(s, more)
  {
    if s != [] {
      assert s[|s| - 1] in s;
      NumberWeaker(s[..|s| - 1], has, more);
    }
  }
}
