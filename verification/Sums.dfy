/** Finite sums over account balances and over number lists. */
module Sums {
  import opened Common

  type Balances = map<Address, nat>

  function Get(m: Balances, a: Address): nat {
    if a in m then m[a] else 0
  }

  function Credit(m: Balances, a: Address, v: nat): Balances {
    m[a := Get(m, a) + v]
  }

  ghost function Total(m: Balances): nat {
    if m == map[] then 0 else var a :| a in m; m[a] + Total(m - {a})
  }

  lemma {:induction false} TotalWithout(m: Balances, a: Address)
    requires a in m
    ensures Total(m) == m[a] + Total(m - {a})
    decreases |m|
  {
    var b :| b in m && Total(m) == m[b] + Total(m - {b});
    if a == b {
    } else {
      assert |m - {b}| < |m| && |m - {a}| < |m| by {
        assert (m - {b}).Keys == m.Keys - {b} && (m - {a}).Keys == m.Keys - {a};
        assert |m| == |m.Keys| && |m - {a}| == |(m - {a}).Keys| && |m - {b}| == |(m - {b}).Keys|;
      }
      TotalWithout(m - {b}, a);
      TotalWithout(m - {a}, b);
      assert m - {a} - {b} == m - {b} - {a};
    }
  }

  /** Replacing one balance moves the total by the difference. */
  lemma TotalUpdate(m: Balances, a: Address, v: nat)
    ensures Total(m[a := v]) + Get(m, a) == Total(m) + v
  {
    TotalWithout(m[a := v], a);
    if a in m {
      TotalWithout(m, a);
      assert m[a := v] - {a} == m - {a};
    } else {
      assert m[a := v] - {a} == m;
    }
  }

  function SumBy<T>(f: T -> nat, s: seq<T>): nat {
    if s == [] then 0 else SumBy(f, s[..|s| - 1]) + f(s[|s| - 1])
  }

  lemma {:induction false} SumByRemoveAt<T>(f: T -> nat, s: seq<T>, i: nat)
    requires i < |s|
    ensures SumBy(f, s) == SumBy(f, RemoveAt(s, i)) + f(s[i])
    decreases |s|
  {
    var n := |s| - 1;
    if i == n {
      assert RemoveAt(s, i) == s[..n];
    } else {
      SumByRemoveAt(f, s[..n], i);
      var rest := RemoveAt(s, i);
      assert rest[..|rest| - 1] == RemoveAt(s[..n], i);
    }
  }

  lemma SumByAppend<T>(f: T -> nat, s: seq<T>, x: T)
    ensures SumBy(f, s + [x]) == SumBy(f, s) + f(x)
  {
    assert (s + [x])[..|s|] == s;
  }

  function SumOver(m: Balances, owners: seq<Address>): nat {
    if owners == [] then 0 else SumOver(m, owners[..|owners| - 1]) + Get(m, owners[|owners| - 1])
  }

  lemma {:induction false} SumOverWithout(m: Balances, owners: seq<Address>, a: Address)
    requires a !in owners
    ensures SumOver(m - {a}, owners) == SumOver(m, owners)
  {
    if owners == [] {
    } else {
      SumOverWithout(m, owners[..|owners| - 1], a);
    }
  }

  /** Distinct owners hold at most the total; if they hold all of it, nobody else holds anything. */
  lemma {:induction false} SumOverAtMostTotal(m: Balances, owners: seq<Address>)
    requires Distinct(owners)
    ensures SumOver(m, owners) <= Total(m)
    ensures SumOver(m, owners) == Total(m) ==> forall a :: a !in owners ==> Get(m, a) == 0
    decreases |owners|
  {
    if owners == [] {
      if Total(m) == 0 {
        forall a ensures Get(m, a) == 0 {
          if a in m {
            TotalWithout(m, a);
          }
        }
      }
    } else {
      var init, last := owners[..|owners| - 1], owners[|owners| - 1];
      assert last !in init;
      SumOverAtMostTotal(m - {last}, init);
      SumOverWithout(m, init, last);
      assert owners == init + [last];
      if last in m {
        TotalWithout(m, last);
      } else {
        assert m - {last} == m;
      }
      if SumOver(m, owners) == Total(m) {
        forall a | a !in owners ensures Get(m, a) == 0 {
          assert Get(m - {last}, a) == Get(m, a);
        }
      }
    }
  }
}
