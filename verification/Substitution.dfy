/** Substitution in any text, whatever stands between its placeholders. */
module Substitution {
  import opened MapIteration
  import opened Templates

  ghost predicate AllTokens(m: map<string, string>)
  {
    forall k | k in m :: IsToken(k)
  }

  /** All placeholders with a value replaced at once, in one scan of the text. */
  ghost function Scan(s: string, m: map<string, string>): string
    decreases |s|
  {
    if s == "" then ""
    else if exists k :: k in m && k != "" && k <= s then
      var k :| k in m && k != "" && k <= s;
      m[k] + Scan(s[|k|..], m)
    else
      [s[0]] + Scan(s[1..], m)
  }

  /** Where j is the place of t relative to v, the two agree as far as they overlap. */
  predicate Agrees(v: string, t: string, j: int)
  {
    forall p | 0 <= p < |v| && j <= p < j + |t| :: v[p] == t[p - j]
  }

  /** The value v can be part of an occurrence of t in some text, or an empty v lie within one. */
  ghost predicate Overlaps(v: string, t: string)
  {
    exists j | -|t| < j < |v| :: Agrees(v, t, j)
  }

  /** The value of one placeholder can be part of an occurrence of another one that is replaced by something else. */
  ghost predicate Clash(m: map<string, string>)
  {
    exists s, t :: s in m && t in m && s != t && m[t] != t && Overlaps(m[s], t)
  }

  // ---- Without a clash every order is the scan ----

  /** One placeholder at most starts at a place. */
  lemma ScanKey(s: string, m: map<string, string>, k: string)
    requires AllTokens(m) && k in m && k <= s
    ensures Scan(s, m) == m[k] + Scan(s[|k|..], m)
  {
    var found :| found in m && found <= s && Scan(s, m) == m[found] + Scan(s[|found|..], m);
    assert s == k + s[|k|..];
    TokensDoNotOverlap(found, k, s[|k|..]);
  }

  lemma ScanEmpty(m: map<string, string>)
    ensures Scan("", m) == ""
  {
  }

  lemma ScanOther(s: string, m: map<string, string>)
    requires AllTokens(m) && s != "" && forall k | k in m :: !(k <= s)
    ensures Scan(s, m) == [s[0]] + Scan(s[1..], m)
  {
  }

  lemma {:induction false} ScanSkips(text: string, rest: string, m: map<string, string>)
    requires AllTokens(m) && '$' !in text
    ensures Scan(text + rest, m) == text + Scan(rest, m)
  {
    if text == "" {
      assert text + rest == rest;
    } else {
      var all := text + rest;
      forall k | k in m ensures !(k <= all) {
        assert k[0] == '$' && all[0] == text[0] && text[0] in text;
      }
      ScanOther(all, m);
      assert all[1..] == text[1..] + rest;
      ScanSkips(text[1..], rest, m);
      assert text == [text[0]] + text[1..];
    }
  }

  /** A placeholder without a value is copied. */
  lemma ScanForeign(t: string, rest: string, m: map<string, string>)
    requires AllTokens(m) && IsToken(t) && t !in m
    ensures Scan(t + rest, m) == t + Scan(rest, m)
  {
    var all := t + rest;
    forall k | k in m ensures !(k <= all) {
      if k <= all { TokensDoNotOverlap(k, t, rest); }
    }
    assert '$' !in t[1..] && t != "";
    hide Scan, IsToken;
    ScanOther(all, m);
    assert all[1..] == t[1..] + rest;
    ScanSkips(t[1..], rest, m);
    assert t == [t[0]] + t[1..];
  }

  /** If the rest of t from n on comes out of a scan at the start, and no value can be part of t, it was there. */
  lemma {:induction false} RestWasThere(s: string, m: map<string, string>, t: string, n: nat)
    requires AllTokens(m) && 1 <= n <= |t| && t[n..] <= Scan(s, m)
    requires forall k | k in m :: !Overlaps(m[k], t)
    ensures t[n..] <= s
    decreases |s|
  {
    if n < |t| && s != "" {
      if k :| k in m && k <= s {
        ScanKey(s, m, k);
        ValueAgrees(m[k], Scan(s[|k|..], m), t, n);
      } else {
        ScanOther(s, m);
        assert t[n..][0] == s[0] && t[n..][1..] == t[n + 1..];
        RestWasThere(s[1..], m, t, n + 1);
        assert t[n..] == [s[0]] + t[n + 1..] && s == [s[0]] + s[1..];
      }
    }
  }

  lemma ValueAgrees(v: string, rest: string, t: string, n: nat)
    requires 1 <= n < |t| && t[n..] <= v + rest
    ensures Overlaps(v, t)
  {
    var j: int := 0 - n;
    forall p | 0 <= p < |v| && j <= p < j + |t| ensures v[p] == t[p - j] {
      assert t[n..][p] == (v + rest)[p];
    }
    assert Agrees(v, t, j);
  }

  lemma StartingOverlaps(v: string, t: string)
    requires t != "" && Meets(v, t)
    ensures Overlaps(v, t)
  {
    var i :| 0 <= i < |v| && (t <= v[i..] || v[i..] <= t);
    forall p | 0 <= p < |v| && i <= p < i + |t| ensures v[p] == t[p - i] {
      assert v[i..][p - i] == v[p];
    }
    assert Agrees(v, t, i);
  }

  /** Replacing one more placeholder after a scan is a scan with it. */
  lemma {:induction false} ReplaceAfterScan(s: string, m: map<string, string>, t: string, v: string)
    requires AllTokens(m) && IsToken(t) && t !in m && forall k | k in m :: !Overlaps(m[k], t)
    ensures ReplaceAll(Scan(s, m), t, v) == Scan(s, m[t := v])
    decreases |s|
  {
    var n := m[t := v];
    if s == "" {
    } else if k :| k in m && k <= s {
      ReplaceAfterScan(s[|k|..], m, t, v);
      ScanKey(s, m, k);
      ScanKey(s, n, k);
      if Meets(m[k], t) { StartingOverlaps(m[k], t); }
      ReplaceSkips(m[k], Scan(s[|k|..], m), t, v);
    } else if t <= s {
      var rest := s[|t|..];
      assert s == t + rest;
      ReplaceAfterScan(rest, m, t, v);
      ScanForeign(t, rest, m);
      ScanKey(s, n, t);
      ReplaceAtToken(t, Scan(rest, m), t, v);
    } else {
      ReplaceAfterScan(s[1..], m, t, v);
      ScanOther(s, m);
      ScanOther(s, n);
      var y := Scan(s[1..], m);
      NotMade(s, m, t);
      assert ([s[0]] + y)[1..] == y;
    }
  }

  lemma NotMade(s: string, m: map<string, string>, t: string)
    requires AllTokens(m) && IsToken(t) && s != "" && !(t <= s) && forall k | k in m :: !Overlaps(m[k], t)
    ensures !(t <= [s[0]] + Scan(s[1..], m))
  {
    var y := Scan(s[1..], m);
    if t <= [s[0]] + y {
      MadeMeansThere(s, m, t);
    }
  }

  lemma MadeMeansThere(s: string, m: map<string, string>, t: string)
    requires AllTokens(m) && IsToken(t) && s != "" && forall k | k in m :: !Overlaps(m[k], t)
    requires t <= [s[0]] + Scan(s[1..], m)
    ensures t <= s
  {
    assert ([s[0]] + Scan(s[1..], m))[1..] == Scan(s[1..], m);
    assert t[1..] <= Scan(s[1..], m);
    RestWasThere(s[1..], m, t, 1);
    assert t == [s[0]] + t[1..] && s == [s[0]] + s[1..];
  }

  /** A placeholder that stands for itself makes no difference. */
  lemma {:induction false} ScanWithItself(s: string, m: map<string, string>, t: string)
    requires AllTokens(m) && IsToken(t) && t !in m
    ensures Scan(s, m[t := t]) == Scan(s, m)
    decreases |s|
  {
    var n := m[t := t];
    if s == "" {
    } else if k :| k in m && k <= s {
      ScanKey(s, m, k);
      ScanKey(s, n, k);
      ScanWithItself(s[|k|..], m, t);
    } else if t <= s {
      assert s == t + s[|t|..];
      ScanKey(s, n, t);
      ScanForeign(t, s[|t|..], m);
      ScanWithItself(s[|t|..], m, t);
    } else {
      ScanOther(s, m);
      ScanOther(s, n);
      ScanWithItself(s[1..], m, t);
    }
  }

  /** The values of the keys in order. */
  function Part(m: map<string, string>, order: seq<string>): map<string, string>
    requires forall k | k in order :: k in m
  {
    map k | k in order :: m[k]
  }

  lemma {:induction false} PartOrderScans(s: string, m: map<string, string>, order: seq<string>)
    requires AllTokens(m) && !Clash(m) && IsPartialOrder(m, order)
    ensures ReplaceInOrder(s, m, order) == Scan(s, Part(m, order))
  {
    if order == [] {
      ScanNothing(s);
      assert Part(m, order) == map[];
    } else {
      hide IsToken, Scan, ReplaceAll, ReplaceInOrder, Overlaps, Clash, Part;
      var n := |order| - 1;
      var before, t := order[..n], order[n];
      assert order == before + [t];
      PartOrderScans(s, m, before);
      ReplaceOneMore(s, m, before, t);
      PartOneMore(m, before, t);
      PartStep(s, m, Part(m, before), t);
    }
  }

  lemma PartOneMore(m: map<string, string>, before: seq<string>, t: string)
    requires IsPartialOrder(m, before + [t]) && t in m && forall k | k in before :: k in m
    ensures t !in Part(m, before) && Part(m, before + [t]) == Part(m, before)[t := m[t]]
    ensures forall k | k in Part(m, before) :: k in m && Part(m, before)[k] == m[k]
  {
    var all := before + [t];
    assert all[|before|] == t && forall i | 0 <= i < |before| :: all[i] == before[i];
    assert t !in before;
    assert forall k :: k in all <==> k in before || k == t;
  }

  lemma PartStep(s: string, m: map<string, string>, part: map<string, string>, t: string)
    requires AllTokens(m) && !Clash(m) && t in m && t !in part && forall k | k in part :: k in m && part[k] == m[k]
    ensures (if t != "" then ReplaceAll(Scan(s, part), t, m[t]) else Scan(s, part)) == Scan(s, part[t := m[t]])
  {
    assert IsToken(t) && t != "";
    hide IsToken, Scan, ReplaceAll, Overlaps;
    if m[t] == t {
      ScanWithItself(s, part, t);
      ReplaceByItself(Scan(s, part), t);
    } else {
      ReplaceAfterScan(s, part, t, m[t]);
    }
  }

  lemma {:induction false} ScanNothing(s: string)
    ensures Scan(s, map[]) == s
    decreases |s|
  {
    if s != "" {
      ScanOther(s, map[]);
      ScanNothing(s[1..]);
      assert s == [s[0]] + s[1..];
    }
  }

  /** Without a clash, every order replaces all placeholders at once, in any text. */
  lemma OrderIsScan(s: string, m: map<string, string>, order: seq<string>)
    requires AllTokens(m) && !Clash(m) && IsOrder(m, order)
    ensures ReplaceInOrder(s, m, order) == Scan(s, m)
  {
    PartOrderScans(s, m, order);
    assert Part(m, order) == m;
  }

  // ---- With a clash two orders differ ----

  /** The text before and after a value that makes t occur at j relative to it. */
  function Before(t: string, j: int): string
    requires -|t| < j
  {
    if j < 0 then t[..-j] else ""
  }

  function After(v: string, t: string, j: int): string
    requires j < |v|
  {
    if |v| < j + |t| then t[|v| - j..] else ""
  }

  lemma CompletedOccurs(v: string, t: string, j: int)
    requires IsToken(t) && -|t| < j < |v| && Agrees(v, t, j)
    ensures Occurs(Before(t, j) + v + After(v, t, j), t)
  {
    var all := Before(t, j) + v + After(v, t, j);
    var i := |Before(t, j)| + j;
    assert 0 < |t| && 0 <= i && i + |t| <= |all|;
    hide IsToken, Agrees, Before, After;
    forall q | 0 <= q < |t| ensures all[i + q] == t[q] {
      CompletedAt(v, t, j, q);
    }
    assert all[i..][..|t|] == t;
    hide Occurs;
    OccursAt(all, t, i);
  }

  lemma CompletedAt(v: string, t: string, j: int, q: nat)
    requires -|t| < j < |v| && Agrees(v, t, j) && q < |t|
    ensures var a, b := Before(t, j), After(v, t, j);
            && 0 <= |a| + j + q < |a + v + b| && (a + v + b)[|a| + j + q] == t[q]
  {
    var a, b := Before(t, j), After(v, t, j);
    var p := j + q;
    if p < 0 {
      assert (a + v + b)[|a| + p] == a[|a| + p];
    } else if p < |v| {
      assert (a + v + b)[|a| + p] == v[p];
    } else {
      assert (a + v + b)[|a| + p] == b[p - |v|];
    }
  }

  /** The beginning of a placeholder that another one follows is copied. */
  lemma CutStartKept(a: string, t: string, rest: string, k: string, v: string)
    requires IsToken(t) && IsToken(k) && a <= t && |a| < |t| && rest != "" && rest[0] == '$'
    ensures ReplaceAll(a + rest, k, v) == a + ReplaceAll(rest, k, v)
  {
    if a == "" {
      assert a + rest == rest;
    } else {
      var all := a + rest;
      if k <= all { CutStartIsWhole(a, t, rest, k); }
      assert '$' !in a[1..] && k != "";
      NoDollarMeetsNothing(a[1..], k);
      assert ReplaceAll(all, k, v) == [all[0]] + ReplaceAll(all[1..], k, v);
      hide ReplaceAll, IsToken, Meets;
      ReplaceSkips(a[1..], rest, k, v);
      assert all[1..] == a[1..] + rest && a == [a[0]] + a[1..];
    }
  }

  lemma CutStartIsWhole(a: string, t: string, rest: string, k: string)
    requires IsToken(t) && IsToken(k) && a != "" && a <= t && rest != "" && rest[0] == '$' && k <= a + rest
    ensures a == t
  {
    EndsBefore(k, a + rest, |a|);
    assert k <= a;
    assert t[|k| - 1] == k[|k| - 1] == '}';
  }

  lemma EndsBefore(k: string, s: string, n: nat)
    requires IsToken(k) && k <= s && 1 <= n < |s| && s[n] == '$'
    ensures |k| <= n
  {
    assert forall i | 0 <= i < |k| :: k[i] == s[i];
  }

  /** A text and two orders that show the order. */
  lemma ClashShows(m: map<string, string>, s: string, t: string, j: int)
    returns (text: string, a: seq<string>, b: seq<string>)
    requires AllTokens(m) && s in m && t in m && s != t && m[t] != t && -|t| < j < |m[s]| && Agrees(m[s], t, j)
    ensures text == Before(t, j) + s + After(m[s], t, j) && IsOrder(m, a) && IsOrder(m, b)
    ensures ReplaceInOrder(text, m, a) != ReplaceInOrder(text, m, b)
  {
    var before, after := Before(t, j), After(m[s], t, j);
    text := before + s + after;
    var others := SomeOrder(m - {s, t});
    a, b := [s] + others + [t], [t] + ([s] + others);
    OrdersAround(m, s, t, others);
    assert ReplaceAll(text, t, m[t]) == text by { AroundReplaced(before, s, after, t, t, m[t]); }
    assert ReplaceAll(text, s, m[s]) == before + m[s] + after by { AroundReplaced(before, s, after, t, s, m[s]); }
    CompletedOccurs(m[s], t, j);
    var middle := ReplaceInOrder(before + m[s] + after, m, others);
    OccurrenceKeptByAll(before + m[s] + after, m, others, t);
    HeadReplaced(text, m, s, others);
    HeadReplaced(text, m, t, [s] + others);
    ReplaceOneMore(text, m, [s] + others, t);
    ReplacingChanges(middle, t, m[t]);
  }

  lemma HeadReplaced(text: string, m: map<string, string>, k: string, rest: seq<string>)
    requires k in m && IsToken(k) && forall u | u in rest :: u in m
    ensures ReplaceInOrder(text, m, [k] + rest) == ReplaceInOrder(ReplaceAll(text, k, m[k]), m, rest)
  {
    hide ReplaceAll;
    assert ([k] + rest)[1..] == rest;
  }

  lemma AroundReplaced(before: string, s: string, after: string, t: string, k: string, v: string)
    requires IsToken(s) && IsToken(t) && IsToken(k) && before <= t && |before| < |t| && '$' !in after
    ensures ReplaceAll(before + s + after, k, v) == before + (if s == k then v else s) + after
  {
    var rest := s + after;
    assert before + s + after == before + rest;
    CutStartKept(before, t, rest, k, v);
    ReplaceAtToken(s, after, k, v);
    RestKept(after, k, v);
    hide ReplaceAll;
    assert before + (if s == k then v else s) + after == before + ((if s == k then v else s) + after);
  }

  /** Values without '$' do not prevent it: a placeholder cut in two by another one whose value completes it. */
  lemma CutPlaceholderShowsOrder(s: string, t: string, n: nat, x: string)
    requires IsToken(s) && IsToken(t) && s != t && 0 < n < |t|
    ensures var m, text := map[s := t[n..], t := x], t[..n] + s;
            && IsOrder(m, [s, t]) && ReplaceInOrder(text, m, [s, t]) == x
            && IsOrder(m, [t, s]) && ReplaceInOrder(text, m, [t, s]) == t
            && '$' !in t[n..]
  {
    var m, text := map[s := t[n..], t := x], t[..n] + s;
    assert text == t[..n] + s + "";
    AroundReplaced(t[..n], s, "", t, s, t[n..]);
    AroundReplaced(t[..n], s, "", t, t, x);
    assert t[..n] + t[n..] + "" == t;
    Whole(t, x);
    TwoReplaced(text, m, s, t);
    TwoReplaced(text, m, t, s);
    assert '$' !in t[n..];
  }

  /** For every text the order of map iteration makes no difference, exactly when no value can be part of an
      occurrence of another placeholder that is replaced by something else. */
  lemma OrderNeverShowsIff(m: map<string, string>)
    requires AllTokens(m)
    ensures (forall text, a, b | IsOrder(m, a) && IsOrder(m, b) ::
               ReplaceInOrder(text, m, a) == ReplaceInOrder(text, m, b))
            <==> !Clash(m)
  {
    if Clash(m) {
      var s, t :| s in m && t in m && s != t && m[t] != t && Overlaps(m[s], t);
      var j :| -|t| < j < |m[s]| && Agrees(m[s], t, j);
      var text, a, b := ClashShows(m, s, t, j);
    } else {
      forall text, a, b | IsOrder(m, a) && IsOrder(m, b)
        ensures ReplaceInOrder(text, m, a) == ReplaceInOrder(text, m, b)
      {
        OrderIsScan(text, m, a);
        OrderIsScan(text, m, b);
      }
    }
  }
}
