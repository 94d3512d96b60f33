/** Job IDs in byte order, as `sort.Slice` puts the sub-jobs of a snapshot. */
module JobOrder {
  import opened Wrappers

  /** Go's `<` on strings. */
  predicate Less(a: string, b: string) {
    b != "" && (a == "" || a[0] < b[0] || (a[0] == b[0] && Less(a[1..], b[1..])))
  }

  /** b goes on after a, or has the greater character where they first differ. */
  ghost predicate DiffersAt(a: string, b: string, k: nat) {
    && k <= |a| && k < |b| && a[..k] == b[..k]
    && (k == |a| || a[k] < b[k])
  }

  /** That is lexicographic order. */
  lemma {:induction false} LessIsLexicographic(a: string, b: string)
    ensures Less(a, b) <==> exists k: nat :: DiffersAt(a, b, k)
  {
    if b != "" && a == "" {
      assert DiffersAt(a, b, 0);
    } else if a != "" && b != "" {
      if a[0] < b[0] {
        assert DiffersAt(a, b, 0);
      }
      LessIsLexicographic(a[1..], b[1..]);
      if exists k: nat :: DiffersAt(a, b, k) {
        var k: nat :| DiffersAt(a, b, k);
        if k > 0 {
          LaterDifference(a, b, k);
        }
      }
      if a[0] == b[0] && exists k: nat :: DiffersAt(a[1..], b[1..], k) {
        var k: nat :| DiffersAt(a[1..], b[1..], k);
        EarlierDifference(a, b, k);
      }
    }
  }

  lemma LaterDifference(a: string, b: string, k: nat)
    requires a != "" && b != "" && k > 0 && DiffersAt(a, b, k)
    ensures a[0] == b[0] && DiffersAt(a[1..], b[1..], k - 1)
  {
    assert a[..k][0] == b[..k][0];
    assert a[1..][..k - 1] == a[..k][1..] && b[1..][..k - 1] == b[..k][1..];
  }

  lemma EarlierDifference(a: string, b: string, k: nat)
    requires a != "" && b != "" && a[0] == b[0] && DiffersAt(a[1..], b[1..], k)
    ensures DiffersAt(a, b, k + 1)
  {
    assert a[..k + 1] == [a[0]] + a[1..][..k] && b[..k + 1] == [b[0]] + b[1..][..k];
  }

  lemma {:induction false} LessTotal(a: string, b: string)
    ensures a == b || Less(a, b) || Less(b, a)
    ensures !(Less(a, b) && Less(b, a)) && !Less(a, a)
  {
    if a != "" && b != "" && a[0] == b[0] {
      LessTotal(a[1..], b[1..]);
      assert a == [a[0]] + a[1..] && b == [b[0]] + b[1..];
    }
    if a != "" { LessTotal(a[1..], a[1..]); }
  }

  lemma {:induction false} LessTransitive(a: string, b: string, c: string)
    requires Less(a, b) && Less(b, c)
    ensures Less(a, c)
  {
    if a != "" && a[0] == b[0] == c[0] {
      LessTransitive(a[1..], b[1..], c[1..]);
    }
  }

  ghost predicate InOrder(ids: seq<string>) {
    forall i, j :: 0 <= i < j < |ids| ==> Less(ids[i], ids[j])
  }

  /** `ids` lists the set in byte order, each element once. */
  ghost predicate ListsIDs(ids: seq<string>, s: set<string>) {
    InOrder(ids) && forall x :: x in ids <==> x in s
  }

  function InsertID(x: string, ids: seq<string>): seq<string> {
    if ids == [] || Less(x, ids[0]) then [x] + ids else [ids[0]] + InsertID(x, ids[1..])
  }

  lemma {:induction false} InsertKeepsOrder(x: string, ids: seq<string>)
    requires InOrder(ids) && x !in ids
    ensures InOrder(InsertID(x, ids)) && forall y :: y in InsertID(x, ids) <==> y == x || y in ids
  {
    if ids != [] {
      LessTotal(x, ids[0]);
      assert ids[0] in ids && ids == [ids[0]] + ids[1..];
      if Less(x, ids[0]) {
        forall j | 0 <= j < |ids| ensures Less(x, ids[j]) {
          if j > 0 { LessTransitive(x, ids[0], ids[j]); }
        }
      } else {
        InsertKeepsOrder(x, ids[1..]);
        var rest := InsertID(x, ids[1..]);
        forall j | 0 <= j < |rest| ensures Less(ids[0], rest[j]) {
          assert rest[j] in rest;
        }
      }
    }
  }

  lemma {:induction false} ListingUnique(a: seq<string>, b: seq<string>)
    requires InOrder(a) && InOrder(b) && forall x :: x in a <==> x in b
    ensures a == b
  {
    assert (a == [] || a[0] in a) && (b == [] || b[0] in b);
    if a != [] && b != [] {
      LessTotal(a[0], b[0]);
      assert a[0] == b[0];
      assert a == [a[0]] + a[1..] && b == [b[0]] + b[1..];
      forall x ensures x in a[1..] <==> x in b[1..] {
        TailMembers(a, x);
        TailMembers(b, x);
      }
      ListingUnique(a[1..], b[1..]);
    }
  }

  lemma TailMembers(a: seq<string>, x: string)
    requires a != [] && InOrder(a)
    ensures x in a[1..] <==> x in a && x != a[0]
  {
    assert a == [a[0]] + a[1..];
    LessTotal(a[0], a[0]);
  }

  lemma ListingExists(s: set<string>) returns (ids: seq<string>)
    ensures ListsIDs(ids, s)
    decreases |s|
  {
    ids := [];
    if s != {} {
      var x := Choose(s);
      var rest := ListingExists(s - {x});
      InsertKeepsOrder(x, rest);
      ids := InsertID(x, rest);
    }
  }

  ghost function SortedIDs(s: set<string>): (ids: seq<string>)
    ensures ListsIDs(ids, s)
  {
    assert exists ids :: ListsIDs(ids, s) by { var ids := ListingExists(s); }
    var ids :| ListsIDs(ids, s);
    ids
  }
}
