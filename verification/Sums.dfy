/** Finite sums over a set of keys. */
module Sums {

  ghost function Sum(keys: set<nat>, w: nat -> nat): nat {
    if keys == {} then 0 else
      var k :| k in keys;
      w(k) + Sum(keys - {k}, w)
  }

  lemma {:induction false} SumPick(keys: set<nat>, w: nat -> nat, k: nat)
    requires k in keys
    ensures Sum(keys, w) == w(k) + Sum(keys - {k}, w)
  {
    var j :| j in keys && Sum(keys, w) == w(j) + Sum(keys - {j}, w);
    if j != k {
      SumPick(keys - {j}, w, k);
      SumPick(keys - {k}, w, j);
      assert keys - {j} - {k} == keys - {k} - {j};
    }
  }

  lemma {:induction false} SumSame(keys: set<nat>, w: nat -> nat, v: nat -> nat)
    requires forall x :: x in keys ==> w(x) == v(x)
    ensures Sum(keys, w) == Sum(keys, v)
  {
    if keys != {} {
      var k :| k in keys;
      SumPick(keys, w, k);
      SumPick(keys, v, k);
      SumSame(keys - {k}, w, v);
    }
  }

  /** One key comes, goes or changes its weight: the sum changes by as much. */
  lemma SumOneKey(keys: set<nat>, keys': set<nat>, m: nat, w: nat -> nat, v: nat -> nat)
    requires (m !in keys ==> w(m) == 0) && (m !in keys' ==> v(m) == 0)
    requires forall x :: x != m ==> (x in keys <==> x in keys') && w(x) == v(x)
    ensures Sum(keys', v) + w(m) == Sum(keys, w) + v(m)
  {
    var rest := keys - {m};
    assert rest == keys' - {m};
    SumSame(rest, w, v);
    if m in keys { SumPick(keys, w, m); } else { assert rest == keys; }
    if m in keys' { SumPick(keys', v, m); } else { assert rest == keys'; }
  }

  lemma {:induction false} SumOfTwo(keys: set<nat>, u: nat -> nat, v: nat -> nat, w: nat -> nat)
    requires forall x :: x in keys ==> u(x) == v(x) + w(x)
    ensures Sum(keys, u) == Sum(keys, v) + Sum(keys, w)
  {
    if keys != {} {
      var k :| k in keys;
      SumPick(keys, u, k);
      SumPick(keys, v, k);
      SumPick(keys, w, k);
      SumOfTwo(keys - {k}, u, v, w);
    }
  }

  lemma {:induction false} SumZero(keys: set<nat>, w: nat -> nat)
    ensures Sum(keys, w) == 0 <==> forall x :: x in keys ==> w(x) == 0
  {
    if keys != {} {
      var k :| k in keys;
      SumPick(keys, w, k);
      SumZero(keys - {k}, w);
    }
  }
}
