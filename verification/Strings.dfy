/** Splitting and joining as JavaScript's split and join do. */
module Strings {
  function Split(s: string, sep: char): (parts: seq<string>)
    ensures |parts| > 0
  {
    if s == [] then [""]
    else
      var rest := Split(s[1..], sep);
      if s[0] == sep then [""] + rest else [[s[0]] + rest[0]] + rest[1..]
  }

  function Join(parts: seq<string>, sep: char): string {
    if |parts| == 0 then ""
    else if |parts| == 1 then parts[0]
    else parts[0] + [sep] + Join(parts[1..], sep)
  }

  function Count(s: string, c: char): nat {
    if s == [] then 0 else (if s[0] == c then 1 else 0) + Count(s[1..], c)
  }

  lemma {:induction false} JoinUndoesSplit(s: string, sep: char)
    ensures Join(Split(s, sep), sep) == s
  {
    if s != [] {
      var rest := Split(s[1..], sep);
      JoinUndoesSplit(s[1..], sep);
      if s[0] == sep {
        assert Split(s, sep)[1..] == rest;
      } else {
        assert Split(s, sep)[1..] == rest[1..];
      }
    }
  }

  lemma {:induction false} SplitCounts(s: string, sep: char)
    ensures |Split(s, sep)| == Count(s, sep) + 1
  {
    if s != [] {
      SplitCounts(s[1..], sep);
    }
  }

  lemma {:induction false} PartsLackSeparator(s: string, sep: char)
    ensures forall i :: 0 <= i < |Split(s, sep)| ==> sep !in Split(s, sep)[i]
  {
    if s != [] {
      PartsLackSeparator(s[1..], sep);
    }
  }

  function Extend(c: char, parts: seq<string>, sep: char): seq<string>
    requires |parts| > 0
  {
    if c == sep then [""] + parts else [[c] + parts[0]] + parts[1..]
  }

  lemma SplitHead(c: char, s: string, sep: char)
    ensures Split([c] + s, sep) == Extend(c, Split(s, sep), sep)
  {
    assert ([c] + s)[1..] == s;
  }

  lemma ExtendAppends(c: char, p: seq<string>, q: seq<string>, sep: char)
    requires |p| > 0
    ensures Extend(c, p + q, sep) == Extend(c, p, sep) + q
  {
    assert (p + q)[1..] == p[1..] + q;
  }

  lemma {:induction false} SplitAtSeparator(a: string, b: string, sep: char)
    ensures Split(a + [sep] + b, sep) == Split(a, sep) + Split(b, sep)
  {
    hide Split;
    if a == [] {
      SplitHead(sep, b, sep);
      SplitWithout(a, sep);
      assert a + [sep] + b == [sep] + b;
    } else {
      SplitAtSeparator(a[1..], b, sep);
      SplitHead(a[0], a[1..] + [sep] + b, sep);
      SplitHead(a[0], a[1..], sep);
      ExtendAppends(a[0], Split(a[1..], sep), Split(b, sep), sep);
      assert a == [a[0]] + a[1..];
      assert a + [sep] + b == [a[0]] + (a[1..] + [sep] + b);
    }
  }

  lemma {:induction false} SplitWithout(s: string, sep: char)
    requires sep !in s
    ensures Split(s, sep) == [s]
  {
    if s != [] {
      assert s == [s[0]] + s[1..];
      SplitWithout(s[1..], sep);
    }
  }

  /** All the parts of a list of strings. */
  function SplitAll(fields: seq<string>, sep: char): seq<string> {
    if fields == [] then [] else Split(fields[0], sep) + SplitAll(fields[1..], sep)
  }

  lemma {:induction false} SplitOfJoin(fields: seq<string>, sep: char)
    requires fields != []
    ensures Split(Join(fields, sep), sep) == SplitAll(fields, sep)
  {
    if |fields| == 1 {
      assert SplitAll(fields[1..], sep) == [];
    } else {
      SplitAtSeparator(fields[0], Join(fields[1..], sep), sep);
      SplitOfJoin(fields[1..], sep);
    }
  }

  lemma {:induction false} SplitAllWithout(fields: seq<string>, sep: char)
    requires forall i :: 0 <= i < |fields| ==> sep !in fields[i]
    ensures SplitAll(fields, sep) == fields
  {
    if fields != [] {
      SplitWithout(fields[0], sep);
      SplitAllWithout(fields[1..], sep);
    }
  }

  lemma JoinOfTwo(a: string, b: string, sep: char)
    ensures Join([a, b], sep) == a + [sep] + b
  {
    assert [a, b][1..] == [b];
  }

  lemma {:induction false} JoinAppends(a: seq<string>, b: seq<string>, sep: char)
    requires a != [] && b != []
    ensures Join(a + b, sep) == Join(a, sep) + [sep] + Join(b, sep)
  {
    if |a| == 1 {
      assert (a + b)[1..] == b;
    } else {
      JoinAppends(a[1..], b, sep);
      assert (a + b)[1..] == a[1..] + b;
    }
  }

  /** Joining a middle part first changes nothing. */
  lemma JoinRegroups(a: seq<string>, b: seq<string>, c: seq<string>, sep: char)
    requires a != [] && b != [] && c != []
    ensures Join(a + [Join(b, sep)] + c, sep) == Join(a + b + c, sep)
  {
    JoinAppends(a + b, c, sep);
    JoinAppends(a, b, sep);
    JoinAppends(a + [Join(b, sep)], c, sep);
    JoinAppends(a, [Join(b, sep)], sep);
  }
}
