/** String operations of the Go standard library that the driver relies on: splitting and joining
    on a one-character separator, trimming, and ASCII lower-casing. */
module Text {

  function Split(s: string, sep: char): (parts: seq<string>)
    ensures |parts| >= 1
    ensures forall p | p in parts :: sep !in p
  {
    if s == "" then
      [""]
    else if s[0] == sep then
      [""] + Split(s[1..], sep)
    else
      var rest := Split(s[1..], sep);
      [[s[0]] + rest[0]] + rest[1..]
  }

  function Join(parts: seq<string>, sep: char): string
  {
    if |parts| == 0 then ""
    else if |parts| == 1 then parts[0]
    else parts[0] + [sep] + Join(parts[1..], sep)
  }

  lemma {:induction false} SplitAtom(s: string, sep: char)
    requires sep !in s
    ensures Split(s, sep) == [s]
  {
    if s != "" {
      SplitAtom(s[1..], sep);
      assert [s[0]] + s[1..] == s;
    }
  }

  lemma {:induction false} SplitAppend(a: string, b: string, sep: char)
    ensures Split(a + [sep] + b, sep) == Split(a, sep) + Split(b, sep)
  {
    if a == "" {
      assert (a + [sep] + b)[1..] == b;
    } else {
      assert (a + [sep] + b)[1..] == a[1..] + [sep] + b;
      SplitAppend(a[1..], b, sep);
    }
  }

  /** Splitting recovers the parts that were joined, provided no part holds the separator. */
  lemma {:induction false} SplitJoin(parts: seq<string>, sep: char)
    requires |parts| >= 1
    requires forall p | p in parts :: sep !in p
    ensures Split(Join(parts, sep), sep) == parts
  {
    SplitAtom(parts[0], sep);
    if |parts| > 1 {
      SplitAppend(parts[0], Join(parts[1..], sep), sep);
      SplitJoin(parts[1..], sep);
    }
  }

  function TrimLeft(s: string, c: char): (t: string)
    ensures t != "" ==> t[0] != c
    ensures forall x | x in t :: x in s
    ensures s == "" || s[0] != c ==> t == s
  {
    if s != "" && s[0] == c then TrimLeft(s[1..], c) else s
  }

  function TrimRight(s: string, c: char): (t: string)
    ensures t <= s
    ensures t != "" ==> t[|t| - 1] != c
    ensures s == "" || s[|s| - 1] != c ==> t == s
  {
    if s != "" && s[|s| - 1] == c then TrimRight(s[..|s| - 1], c) else s
  }

  /** strings.Trim with a one-character cutset. */
  function Trim(s: string, c: char): (t: string)
    ensures t != "" ==> t[0] != c && t[|t| - 1] != c
    ensures forall x | x in t :: x in s
  {
    TrimRight(TrimLeft(s, c), c)
  }

  /** Trimming takes away nothing but the trimmed character. */
  lemma TrimmedHolds(s: string, c: char, d: char)
    requires c != d && d in s
    ensures d in Trim(s, c)
  {
    LeftTrimmedHolds(s, c, d);
    RightTrimmedHolds(TrimLeft(s, c), c, d);
  }

  lemma {:induction false} LeftTrimmedHolds(s: string, c: char, d: char)
    requires c != d && d in s
    ensures d in TrimLeft(s, c)
  {
    if s[0] == c {
      LeftTrimmedHolds(s[1..], c, d);
    }
  }

  lemma {:induction false} RightTrimmedHolds(s: string, c: char, d: char)
    requires c != d && d in s
    ensures d in TrimRight(s, c)
  {
    if s[|s| - 1] == c {
      RightTrimmedHolds(s[..|s| - 1], c, d);
    }
  }

  /** Nothing is left exactly of a text of trimmed characters. */
  lemma TrimmedAwayIff(s: string, c: char)
    ensures Trim(s, c) == "" <==> forall i | 0 <= i < |s| :: s[i] == c
  {
    if i :| 0 <= i < |s| && s[i] != c {
      TrimmedHolds(s, c, s[i]);
    } else if Trim(s, c) != "" {
      assert Trim(s, c)[0] in Trim(s, c);
    }
  }

  lemma TrimTwice(s: string, c: char)
    ensures Trim(Trim(s, c), c) == Trim(s, c)
  {
    var t := Trim(s, c);
    assert TrimLeft(t, c) == t;
  }

  function LowerChar(c: char): char
  {
    if 'A' <= c <= 'Z' then (c as int + 32) as char else c
  }

  /** strings.ToLower, restricted to ASCII letters. */
  function Lower(s: string): string
  {
    seq(|s|, i requires 0 <= i < |s| => LowerChar(s[i]))
  }

  /** strings.EqualFold, restricted to ASCII letters. */
  predicate EqualFold(a: string, b: string)
  {
    Lower(a) == Lower(b)
  }

  /** Upper-case letters become the lower-case ones, and nothing else changes. */
  lemma LowerMeaning(s: string, i: nat)
    requires i < |s|
    ensures |Lower(s)| == |s|
    ensures 'A' <= s[i] <= 'Z' ==>
              'a' <= Lower(s)[i] <= 'z' && Lower(s)[i] as int - 'a' as int == s[i] as int - 'A' as int
    ensures !('A' <= s[i] <= 'Z') ==> Lower(s)[i] == s[i]
  {
  }

  lemma LowerTwice(s: string)
    ensures Lower(Lower(s)) == Lower(s)
  {
  }
}
