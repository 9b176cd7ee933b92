/** `String.split` and `Array.join` on a one-character separator, and how they undo each other. */
module Joined {

  /** The separator does not occur in any of the parts. */
  predicate Free(parts: seq<string>, sep: char) {
    forall i | 0 <= i < |parts| :: sep !in parts[i]
  }

  function Join(parts: seq<string>, sep: char): string {
    if |parts| == 0 then ""
    else if |parts| == 1 then parts[0]
    else parts[0] + [sep] + Join(parts[1..], sep)
  }

  /** One more character in front: a separator starts a new part, any other character joins the first one. */
  function Prepend(c: char, parts: seq<string>, sep: char): (r: seq<string>)
    requires |parts| > 0
    ensures |r| > 0
  {
    if c == sep then [""] + parts else [[c] + parts[0]] + parts[1..]
  }

  /** Splitting always gives at least one part: the empty string splits into one empty part. */
  function Split(s: string, sep: char): (parts: seq<string>)
    ensures |parts| > 0
  {
    if s == "" then [""] else Prepend(s[0], Split(s[1..], sep), sep)
  }

  lemma {:induction false} SplitFree(s: string, sep: char)
    ensures Free(Split(s, sep), sep)
  {
    if s != "" {
      SplitFree(s[1..], sep);
    }
  }

  lemma JoinPrepend(c: char, parts: seq<string>, sep: char)
    requires |parts| > 0
    ensures Join(Prepend(c, parts, sep), sep) == [c] + Join(parts, sep)
  {
    var r := Prepend(c, parts, sep);
    if c == sep {
      assert r[1..] == parts;
    } else {
      assert r[1..] == parts[1..];
    }
  }

  lemma {:induction false} JoinSplit(s: string, sep: char)
    ensures Join(Split(s, sep), sep) == s
  {
    if s != "" {
      JoinSplit(s[1..], sep);
      JoinPrepend(s[0], Split(s[1..], sep), sep);
    }
  }

  lemma PrependConcat(c: char, parts: seq<string>, more: seq<string>, sep: char)
    requires |parts| > 0
    ensures Prepend(c, parts + more, sep) == Prepend(c, parts, sep) + more
  {
    assert (parts + more)[1..] == parts[1..] + more;
  }

  lemma {:induction false} SplitConcat(a: string, b: string, sep: char)
    ensures Split(a + [sep] + b, sep) == Split(a, sep) + Split(b, sep)
  {
    var s := a + [sep] + b;
    if a == "" {
      assert s[1..] == b;
    } else {
      SplitConcat(a[1..], b, sep);
      assert s[1..] == a[1..] + [sep] + b && s[0] == a[0];
      PrependConcat(a[0], Split(a[1..], sep), Split(b, sep), sep);
    }
  }

  lemma {:induction false} SplitWhole(p: string, sep: char)
    requires sep !in p
    ensures Split(p, sep) == [p]
  {
    if p != "" {
      SplitWhole(p[1..], sep);
      assert p[0] in p;
      assert [p[0]] + p[1..] == p;
    }
  }

  lemma FirstAndRest(parts: seq<string>, more: seq<string>)
    requires |parts| > 0
    ensures [parts[0]] + (parts[1..] + more) == parts + more
  {
    assert parts == [parts[0]] + parts[1..];
  }

  /** The last part may contain the separator: it is split further. */
  lemma {:induction false} SplitJoinLast(parts: seq<string>, last: string, sep: char)
    requires Free(parts, sep)
    ensures Split(Join(parts + [last], sep), sep) == parts + Split(last, sep)
  {
    if parts == [] {
      assert parts + [last] == [last];
    } else {
      var first, rest := parts[0], Join(parts[1..] + [last], sep);
      SplitJoinLast(parts[1..], last, sep);
      assert (parts + [last])[1..] == parts[1..] + [last];
      assert Join(parts + [last], sep) == first + [sep] + rest;
      SplitWhole(first, sep);
      SplitConcat(first, rest, sep);
      FirstAndRest(parts, Split(last, sep));
    }
  }

  lemma {:induction false} SplitJoin(parts: seq<string>, sep: char)
    requires |parts| > 0 && Free(parts, sep)
    ensures Split(Join(parts, sep), sep) == parts
  {
    var n := |parts| - 1;
    SplitJoinLast(parts[..n], parts[n], sep);
    SplitWhole(parts[n], sep);
    assert parts[..n] + [parts[n]] == parts;
  }

  lemma {:induction false} OneFieldIff(s: string, sep: char)
    ensures |Split(s, sep)| == 1 <==> sep !in s
  {
    if s != "" {
      OneFieldIff(s[1..], sep);
    }
  }

  /** A joined column has at least as many fields as parts, and as many exactly when no part has the separator. */
  lemma {:induction false} FieldCount(parts: seq<string>, sep: char)
    requires parts != []
    ensures |Split(Join(parts, sep), sep)| >= |parts|
    ensures |Split(Join(parts, sep), sep)| == |parts| <==> Free(parts, sep)
  {
    OneFieldIff(parts[0], sep);
    if |parts| > 1 {
      SplitConcat(parts[0], Join(parts[1..], sep), sep);
      FieldCount(parts[1..], sep);
      assert parts == [parts[0]] + parts[1..];
    }
  }
}
