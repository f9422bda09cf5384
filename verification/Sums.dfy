/** Sums of a natural-valued function over listed keys. */
module Sums {

  ghost function Sum<K>(keys: seq<K>, f: K -> nat): nat {
    if keys == [] then 0 else Sum(keys[..|keys| - 1], f) + f(keys[|keys| - 1])
  }

  lemma {:induction false} SumDependsOnKeys<K>(keys: seq<K>, f: K -> nat, g: K -> nat)
    requires forall i | 0 <= i < |keys| :: f(keys[i]) == g(keys[i])
    ensures Sum(keys, f) == Sum(keys, g)
  {
    if keys != [] {
      SumDependsOnKeys(keys[..|keys| - 1], f, g);
    }
  }

  lemma {:induction false} SumChangesOne<K>(keys: seq<K>, p: nat, f: K -> nat, g: K -> nat)
    requires p < |keys| && forall i | 0 <= i < |keys| && i != p :: f(keys[i]) == g(keys[i])
    ensures Sum(keys, g) + f(keys[p]) == Sum(keys, f) + g(keys[p])
  {
    var n := |keys| - 1;
    if p == n {
      SumDependsOnKeys(keys[..n], f, g);
    } else {
      SumChangesOne(keys[..n], p, f, g);
    }
  }
}
