/** Minimum and sum, for the retry loops and the byte streams. */
module Numbers {
  function Min(a: int, b: int): int {
    if a <= b then a else b
  }

  function Sum(s: seq<nat>): nat {
    if s == [] then 0 else Sum(s[..|s| - 1]) + s[|s| - 1]
  }

  lemma {:induction false} SumCons(head: nat, rest: seq<nat>)
    ensures Sum([head] + rest) == head + Sum(rest)
  {
    if rest == [] {
      assert [head] + rest == [head] && [head][..0] == [];
    } else {
      var n := |rest| - 1;
      assert ([head] + rest)[..n + 1] == [head] + rest[..n];
      SumCons(head, rest[..n]);
    }
  }

  lemma {:induction false} SumPrefix(s: seq<nat>, n: nat)
    requires n <= |s|
    ensures Sum(s[..n]) <= Sum(s)
  {
    if n < |s| {
      SumPrefix(s[..|s| - 1], n);
      assert s[..|s| - 1][..n] == s[..n];
    } else {
      assert s[..n] == s;
    }
  }
}
