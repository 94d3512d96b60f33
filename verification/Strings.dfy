/** `strings.Cut`, `strings.Split` and the joining done by a string builder, for one-character separators. */
module Strings {
  import opened Wrappers

  /** The text before and after the first `sep`. */
  function Cut(s: string, sep: char): Option<(string, string)> {
    if s == "" then None
    else if s[0] == sep then Some(("", s[1..]))
    else
      match Cut(s[1..], sep)
      case None => None
      case Some((before, after)) => Some(([s[0]] + before, after))
  }

  function Split(s: string, sep: char): (parts: seq<string>)
    ensures |parts| >= 1
  {
    if s == "" then [""]
    else
      var rest := Split(s[1..], sep);
      if s[0] == sep then [""] + rest else [[s[0]] + rest[0]] + rest[1..]
  }

  function Join(parts: seq<string>, sep: char): string {
    if |parts| == 0 then ""
    else if |parts| == 1 then parts[0]
    else Join(parts[..|parts| - 1], sep) + [sep] + parts[|parts| - 1]
  }

  lemma {:induction false} CutAtFirst(before: string, sep: char, after: string)
    requires sep !in before
    ensures Cut(before + [sep] + after, sep) == Some((before, after))
  {
    var s := before + [sep] + after;
    if before == "" {
      assert s[1..] == after;
    } else {
      CutAtFirst(before[1..], sep, after);
      assert s[1..] == before[1..] + [sep] + after;
      assert [s[0]] + before[1..] == before;
    }
  }

  lemma {:induction false} SplitWithout(s: string, sep: char)
    requires sep !in s
    ensures Split(s, sep) == [s]
  {
    if s != "" {
      SplitWithout(s[1..], sep);
      assert [s[0]] + s[1..] == s;
    }
  }

  lemma {:induction false} SplitSnoc(s: string, sep: char, last: string)
    requires sep !in last
    ensures Split(s + [sep] + last, sep) == Split(s, sep) + [last]
  {
    var whole := s + [sep] + last;
    if s == "" {
      assert whole[1..] == last;
      SplitWithout(last, sep);
    } else {
      assert whole[1..] == s[1..] + [sep] + last;
      SplitSnoc(s[1..], sep, last);
    }
  }

  /** Splitting undoes joining when no part holds the separator. */
  lemma {:induction false} SplitInvertsJoin(parts: seq<string>, sep: char)
    requires |parts| >= 1
    requires forall i :: 0 <= i < |parts| ==> sep !in parts[i]
    ensures Split(Join(parts, sep), sep) == parts
  {
    var n := |parts|;
    if n == 1 {
      SplitWithout(parts[0], sep);
    } else {
      SplitInvertsJoin(parts[..n - 1], sep);
      SplitSnoc(Join(parts[..n - 1], sep), sep, parts[n - 1]);
      assert parts[..n - 1] + [parts[n - 1]] == parts;
    }
  }

  /** Joining undoes splitting, and no part holds the separator. */
  lemma {:induction false} JoinInvertsSplit(s: string, sep: char)
    ensures Join(Split(s, sep), sep) == s
    ensures forall i :: 0 <= i < |Split(s, sep)| ==> sep !in Split(s, sep)[i]
  {
    if s != "" {
      var rest := Split(s[1..], sep);
      JoinInvertsSplit(s[1..], sep);
      if s[0] == sep {
        JoinCons("", rest, sep);
      } else {
        JoinHead([s[0]], rest, sep);
      }
      assert s == [s[0]] + s[1..];
    }
  }

  lemma {:induction false} JoinCons(first: string, rest: seq<string>, sep: char)
    requires |rest| >= 1
    ensures Join([first] + rest, sep) == first + [sep] + Join(rest, sep)
  {
    var all := [first] + rest;
    if |rest| > 1 {
      JoinCons(first, rest[..|rest| - 1], sep);
      assert all[..|all| - 1] == [first] + rest[..|rest| - 1];
      assert Join(all, sep) == first + [sep] + Join(rest[..|rest| - 1], sep) + [sep] + rest[|rest| - 1];
    } else {
      assert all[..1] == [first];
    }
  }

  /** A text put before the first part is put before the whole. */
  lemma {:induction false} JoinHead(prefix: string, parts: seq<string>, sep: char)
    requires |parts| >= 1
    ensures Join([prefix + parts[0]] + parts[1..], sep) == prefix + Join(parts, sep)
  {
    if |parts| > 1 {
      var rest := parts[1..];
      assert parts == [parts[0]] + rest;
      JoinCons(prefix + parts[0], rest, sep);
      JoinCons(parts[0], rest, sep);
      assert prefix + (parts[0] + [sep] + Join(rest, sep)) == prefix + parts[0] + [sep] + Join(rest, sep);
    }
  }

  /** Cutting gives what is before the first separator and what is after it, and nothing exactly if there is none. */
  lemma {:induction false} CutExactly(s: string, sep: char)
    ensures Cut(s, sep).None? <==> sep !in s
    ensures Cut(s, sep).Some? ==>
              var (before, after) := Cut(s, sep).value;
              s == before + [sep] + after && sep !in before
  {
    if s != "" {
      CutExactly(s[1..], sep);
      assert s == [s[0]] + s[1..];
    }
  }
}
