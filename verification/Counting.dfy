/** How many positions of a list satisfy a condition. */
module Counting {
  /** One flag for each position. */
  function Count(flags: seq<bool>): nat {
    if flags == [] then 0 else Count(flags[..|flags| - 1]) + if flags[|flags| - 1] then 1 else 0
  }

  ghost function Positions(flags: seq<bool>): set<nat> {
    set i: nat | i < |flags| && flags[i]
  }

  lemma PositionsNext(flags: seq<bool>)
    requires flags != []
    ensures var n: nat := |flags| - 1;
            Positions(flags) == if flags[n] then Positions(flags[..n]) + {n} else Positions(flags[..n])
  {
  }

  lemma {:induction false} CountIsSize(flags: seq<bool>)
    ensures |Positions(flags)| == Count(flags)
  {
    if flags == [] {
      assert Positions(flags) == {};
    } else {
      CountIsSize(flags[..|flags| - 1]);
      PositionsNext(flags);
    }
  }

  lemma {:induction false} CountConcat(a: seq<bool>, b: seq<bool>)
    ensures Count(a + b) == Count(a) + Count(b)
  {
    if b == [] {
      assert a + b == a;
    } else {
      CountConcat(a, b[..|b| - 1]);
      assert (a + b)[..|a + b| - 1] == a + b[..|b| - 1];
    }
  }

  lemma CountOne(b: bool)
    ensures Count([b]) == if b then 1 else 0
  {
    assert [b][..0] == [];
  }

  lemma Whole(flags: seq<bool>, j: nat)
    requires j < |flags|
    ensures flags == flags[..j] + [flags[j]] + flags[j + 1..]
  {
  }

  lemma CountWithout(flags: seq<bool>, j: nat)
    requires j < |flags|
    ensures Count(flags) == Count(flags[..j] + flags[j + 1..]) + if flags[j] then 1 else 0
  {
    var a, b, c := flags[..j], [flags[j]], flags[j + 1..];
    Whole(flags, j);
    CountConcat(a + b, c);
    CountConcat(a, b);
    CountConcat(a, c);
    CountOne(flags[j]);
  }

  /** The first n positions. */
  ghost function Initial(n: nat): (r: set<nat>)
    ensures |r| == n && forall i: nat :: i in r <==> i < n
  {
    if n == 0 then {}
    else
      var m: nat := n - 1;
      Initial(m) + {m}
  }

  lemma SubsetSize(a: set<nat>, b: set<nat>)
    requires a <= b
    ensures |a| <= |b|
  {
    assert b == a + (b - a);
  }
}
