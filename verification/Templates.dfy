/** Sub-directory templates: placeholders of pod, claim and volume metadata are replaced one after the
    other, in whatever order Go iterates over the map of replacements. */
module Templates {
  import opened MapIteration

  /** strings.ReplaceAll for a non-empty old text: leftmost occurrences, not overlapping. */
  function ReplaceAll(s: string, old_: string, new_: string): string
    requires old_ != ""
    decreases |s|
  {
    if s == "" then ""
    else if old_ <= s then new_ + ReplaceAll(s[|old_|..], old_, new_)
    else [s[0]] + ReplaceAll(s[1..], old_, new_)
  }

  /** ReplaceWithMap, for one iteration order of the map. Empty keys are skipped. */
  function ReplaceInOrder(s: string, m: map<string, string>, order: seq<string>): string
    requires forall k | k in order :: k in m
    decreases |order|
  {
    if order == [] then s
    else
      var k := order[0];
      ReplaceInOrder(if k != "" then ReplaceAll(s, k, m[k]) else s, m, order[1..])
  }

  /** A placeholder such as ${pod.metadata.name}: one '$', at the front, and one '}', at the end. */
  predicate IsToken(t: string)
  {
    && |t| >= 2 && t[0] == '$' && t[|t| - 1] == '}'
    && (forall i | 0 < i < |t| :: t[i] != '$')
    && (forall i | 0 <= i < |t| - 1 :: t[i] != '}')
  }

  /** A template read as literal text and placeholders. */
  datatype Piece = Literal(text: string) | Token(text: string)

  predicate IsPiece(p: Piece)
  {
    match p
    case Literal(t) => '$' !in t
    case Token(t) => IsToken(t)
  }

  predicate WellFormed(pieces: seq<Piece>)
  {
    forall p | p in pieces :: IsPiece(p)
  }

  function Render(pieces: seq<Piece>): string
  {
    if pieces == [] then "" else pieces[0].text + Render(pieces[1..])
  }

  /** Replace one placeholder in all pieces. */
  function Fill(pieces: seq<Piece>, k: string, v: string): seq<Piece>
  {
    if pieces == [] then []
    else [if pieces[0] == Token(k) then Literal(v) else pieces[0]] + Fill(pieces[1..], k, v)
  }

  /** Replace all placeholders that have a value, at once. */
  function FillAll(pieces: seq<Piece>, m: map<string, string>): seq<Piece>
  {
    if pieces == [] then []
    else
      var p := pieces[0];
      [if p.Token? && p.text in m then Literal(m[p.text]) else p] + FillAll(pieces[1..], m)
  }

  /** No two placeholders start alike. */
  lemma TokensDoNotOverlap(k: string, t: string, rest: string)
    requires IsToken(k) && IsToken(t) && k <= t + rest
    ensures k == t
  {
    assert forall i | 0 <= i < |k| :: k[i] == (t + rest)[i];
    var last := (if |k| < |t| then |k| else |t|) - 1;
    assert k[last] == t[last] == '}';
    assert |k| == |t| ==> k == t;
  }

  /** The text holds t, or ends in the beginning of t: an occurrence of t can start in it. */
  ghost predicate Meets(text: string, t: string)
  {
    exists i | 0 <= i < |text| :: t <= text[i..] || text[i..] <= t
  }

  lemma NoDollarMeetsNothing(text: string, t: string)
    requires IsToken(t) && '$' !in text
    ensures !Meets(text, t)
  {
    forall i | 0 <= i < |text| ensures !(t <= text[i..]) && !(text[i..] <= t) {
      assert text[i..][0] == text[i] && text[i] != t[0];
    }
  }

  lemma MeetsLater(text: string, t: string)
    requires text != "" && Meets(text[1..], t)
    ensures Meets(text, t)
  {
    var i :| 0 <= i < |text[1..]| && (t <= text[1..][i..] || text[1..][i..] <= t);
    assert text[1..][i..] == text[i + 1..];
  }

  lemma StartMeets(text: string, rest: string, t: string)
    requires text != "" && t <= text + rest
    ensures Meets(text, t)
  {
    assert text[0..] == text;
    assert if |t| <= |text| then t <= text else text <= t;
  }

  /** Text in which no occurrence of k can start is copied. */
  lemma {:induction false} ReplaceSkips(text: string, rest: string, k: string, v: string)
    requires k != "" && !Meets(text, k)
    ensures ReplaceAll(text + rest, k, v) == text + ReplaceAll(rest, k, v)
  {
    if text == "" {
      assert text + rest == rest;
    } else {
      var all := text + rest;
      if k <= all { StartMeets(text, rest, k); }
      if Meets(text[1..], k) { MeetsLater(text, k); }
      assert all[1..] == text[1..] + rest;
      assert text == [text[0]] + text[1..];
      ReplaceSkips(text[1..], rest, k, v);
    }
  }

  lemma ReplaceAtToken(t: string, rest: string, k: string, v: string)
    requires IsToken(t) && IsToken(k)
    ensures ReplaceAll(t + rest, k, v) == (if t == k then v else t) + ReplaceAll(rest, k, v)
  {
    if t == k {
      assert k <= t + rest && (t + rest)[|k|..] == rest;
    } else {
      if k <= t + rest { TokensDoNotOverlap(k, t, rest); }
      assert (t + rest)[1..] == t[1..] + rest;
      NoDollarMeetsNothing(t[1..], k);
      ReplaceSkips(t[1..], rest, k, v);
      assert t == [t[0]] + t[1..];
    }
  }

  /** No occurrence of a placeholder that is still to be replaced by something else can start in a literal part. */
  ghost predicate Ready(pieces: seq<Piece>, m: map<string, string>)
  {
    forall p | p in pieces :: if p.Token? then IsToken(p.text) else Inert(p.text, m)
  }

  ghost predicate Inert(text: string, m: map<string, string>)
  {
    forall t | t in m && m[t] != t :: !Meets(text, t)
  }

  lemma {:induction false} ReplaceFills(pieces: seq<Piece>, m: map<string, string>, k: string)
    requires Ready(pieces, m) && k in m && IsToken(k)
    ensures ReplaceAll(Render(pieces), k, m[k]) == Render(Fill(pieces, k, m[k]))
  {
    var v := m[k];
    if v == k {
      ReplaceByItself(Render(pieces), k);
      FillByItself(pieces, k);
    } else if pieces != [] {
      var p, rest := pieces[0], Render(pieces[1..]);
      assert p in pieces;
      ReplaceFills(pieces[1..], m, k);
      match p
      case Literal(t) => ReplaceSkips(t, rest, k, v);
      case Token(t) => ReplaceAtToken(t, rest, k, v);
      hide ReplaceAll, IsToken;
    }
  }

  lemma {:induction false} ReplaceByItself(s: string, k: string)
    requires k != ""
    ensures ReplaceAll(s, k, k) == s
    decreases |s|
  {
    if s != "" {
      if k <= s {
        ReplaceByItself(s[|k|..], k);
        assert s == k + s[|k|..];
      } else {
        ReplaceByItself(s[1..], k);
        assert s == [s[0]] + s[1..];
      }
    }
  }

  lemma {:induction false} FillByItself(pieces: seq<Piece>, k: string)
    ensures Render(Fill(pieces, k, k)) == Render(pieces)
  {
    if pieces != [] {
      FillByItself(pieces[1..], k);
      assert Fill(pieces, k, k)[1..] == Fill(pieces[1..], k, k);
    }
  }

  /** An occurrence of a placeholder can start in the value of another one. */
  ghost predicate PlainClash(m: map<string, string>)
  {
    exists s, t :: s in m && t in m && s != t && m[t] != t && Meets(m[s], t)
  }

  lemma {:induction false} FillKeepsReady(pieces: seq<Piece>, m: map<string, string>, k: string,
                                          rest: map<string, string>)
    requires Ready(pieces, m) && k in m && rest == m - {k} && !PlainClash(m)
    ensures Ready(Fill(pieces, k, m[k]), rest)
  {
    if pieces != [] {
      assert pieces[0] in pieces;
      FillKeepsReady(pieces[1..], m, k, rest);
      hide Meets, IsToken;
      assert Inert(m[k], rest);
    }
  }

  lemma {:induction false} FillThenFillAll(pieces: seq<Piece>, m: map<string, string>, k: string,
                                           rest: map<string, string>)
    requires k in m && rest == m - {k}
    ensures FillAll(Fill(pieces, k, m[k]), rest) == FillAll(pieces, m)
  {
    if pieces != [] {
      FillThenFillAll(pieces[1..], m, k, rest);
      assert Fill(pieces, k, m[k])[1..] == Fill(pieces[1..], k, m[k]);
    }
  }

  lemma {:induction false} FillNothing(pieces: seq<Piece>)
    ensures FillAll(pieces, map[]) == pieces
  {
    if pieces != [] {
      FillNothing(pieces[1..]);
    }
  }

  lemma {:induction false} OrderWithoutFirst(s: string, m: map<string, string>, order: seq<string>,
                                             rest: map<string, string>)
    requires forall k | k in order :: k in rest && k in m && rest[k] == m[k]
    ensures ReplaceInOrder(s, m, order) == ReplaceInOrder(s, rest, order)
    decreases |order|
  {
    if order != [] {
      var k := order[0];
      OrderWithoutFirst(if k != "" then ReplaceAll(s, k, m[k]) else s, m, order[1..], rest);
    }
  }

  lemma OrderOfRest(m: map<string, string>, order: seq<string>)
    requires IsOrder(m, order) && order != []
    ensures IsOrder(m - {order[0]}, order[1..])
  {
    var rest := m - {order[0]};
    forall x ensures x in order[1..] <==> x in rest {
      if x in rest {
        var i :| 0 <= i < |order| && order[i] == x;
        assert order[1..][i - 1] == x;
      }
      if x in order[1..] {
        var i :| 0 <= i < |order[1..]| && order[1..][i] == x;
        assert order[i + 1] == x;
      }
    }
  }

  lemma {:induction false} ReadyPiecesFill(pieces: seq<Piece>, m: map<string, string>, order: seq<string>)
    requires Ready(pieces, m) && IsOrder(m, order) && !PlainClash(m) && forall k | k in m :: IsToken(k)
    ensures ReplaceInOrder(Render(pieces), m, order) == Render(FillAll(pieces, m))
    decreases |order|
  {
    hide IsToken, Ready, Meets;
    if order == [] {
      assert m == map[];
      FillNothing(pieces);
    } else {
      var k := order[0];
      var rest := m - {k};
      OrderOfRest(m, order);
      ReplaceFills(pieces, m, k);
      TokenIsNotEmpty(k);
      FillKeepsReady(pieces, m, k, rest);
      OrderWithoutFirst(Render(Fill(pieces, k, m[k])), m, order[1..], rest);
      ReadyPiecesFill(Fill(pieces, k, m[k]), rest, order[1..]);
      FillThenFillAll(pieces, m, k, rest);
    }
  }

  lemma TokenIsNotEmpty(t: string)
    requires IsToken(t)
    ensures t != ""
  {
  }

  /** Substitution does not depend on the order of map iteration if no occurrence of a placeholder can start in the
      value of another one: every order gives the template with all placeholders replaced at once. */
  lemma OrderDoesNotMatter(pieces: seq<Piece>, m: map<string, string>, order: seq<string>)
    requires WellFormed(pieces) && IsOrder(m, order) && !PlainClash(m) && forall k | k in m :: IsToken(k)
    ensures ReplaceInOrder(Render(pieces), m, order) == Render(FillAll(pieces, m))
  {
    forall p | p in pieces && p.Literal? ensures Inert(p.text, m) {
      assert IsPiece(p);
      forall t | t in m { NoDollarMeetsNothing(p.text, t); }
    }
    assert forall p | p in pieces && p.Token? :: IsPiece(p);
    ReadyPiecesFill(pieces, m, order);
  }

  /** In particular if no value holds '$'. */
  lemma DollarFreeValuesDoNotStart(m: map<string, string>)
    requires forall k | k in m :: IsToken(k) && '$' !in m[k]
    ensures !PlainClash(m)
  {
    forall s, t | s in m && t in m ensures !Meets(m[s], t) {
      NoDollarMeetsNothing(m[s], t);
    }
  }

  // ---- The converse ----

  predicate Occurs(s: string, t: string)
  {
    s != "" && (t <= s || Occurs(s[1..], t))
  }

  lemma {:induction false} OccursAt(s: string, t: string, i: nat)
    requires i < |s| && t <= s[i..]
    ensures Occurs(s, t)
  {
    if i == 0 {
      assert s[0..] == s;
    } else {
      assert s[i..] == s[1..][i - 1..];
      OccursAt(s[1..], t, i - 1);
    }
  }

  lemma {:induction false} OccursAfter(a: string, s: string, t: string)
    requires Occurs(s, t)
    ensures Occurs(a + s, t)
  {
    if a == "" {
      assert a + s == s;
    } else {
      assert (a + s)[1..] == a[1..] + s;
      OccursAfter(a[1..], s, t);
    }
  }

  /** An occurrence that does not start in the first n characters is in the rest. */
  lemma {:induction false} OccursInRest(s: string, t: string, n: nat)
    requires Occurs(s, t) && n <= |s| && forall i | 0 <= i < n :: !(t <= s[i..])
    ensures Occurs(s[n..], t)
  {
    if n == 0 {
      assert s[0..] == s;
    } else {
      assert s[0..] == s;
      forall i | 0 <= i < n - 1 ensures !(t <= s[1..][i..]) {
        assert s[1..][i..] == s[i + 1..];
      }
      OccursInRest(s[1..], t, n - 1);
      assert s[1..][n - 1..] == s[n..];
    }
  }

  /** Replacing one placeholder leaves the occurrences of another one. */
  lemma {:induction false} OccurrenceKept(s: string, u: string, v: string, t: string)
    requires IsToken(u) && IsToken(t) && u != t && Occurs(s, t)
    ensures Occurs(ReplaceAll(s, u, v), t)
    decreases |s|
  {
    if u <= s {
      forall i | 0 <= i < |u| ensures !(t <= s[i..]) {
        if t <= s[i..] { SameStart(s, u, t, i); }
      }
      OccursInRest(s, t, |u|);
      OccurrenceKept(s[|u|..], u, v, t);
      OccursAfter(v, ReplaceAll(s[|u|..], u, v), t);
    } else if t <= s {
      var rest := s[|t|..];
      assert s == t + rest;
      ReplaceAtToken(t, rest, u, v);
    } else {
      OccurrenceKept(s[1..], u, v, t);
      OccursAfter([s[0]], ReplaceAll(s[1..], u, v), t);
    }
  }

  /** A placeholder does not start within another one. */
  lemma SameStart(s: string, u: string, t: string, i: nat)
    requires IsToken(u) && IsToken(t) && u <= s && i < |u| && t <= s[i..]
    ensures t == u
  {
    assert s[i] == t[0] == '$' && s[i] == u[i];
    assert i == 0 && s[0..] == s;
    assert s == u + s[|u|..];
    TokensDoNotOverlap(t, u, s[|u|..]);
  }

  lemma {:induction false} OccurrenceKeptByAll(s: string, m: map<string, string>, order: seq<string>, t: string)
    requires (forall u | u in order :: u in m && IsToken(u) && u != t) && IsToken(t) && Occurs(s, t)
    ensures Occurs(ReplaceInOrder(s, m, order), t)
    decreases |order|
  {
    if order != [] {
      var u := order[0];
      OccurrenceKept(s, u, m[u], t);
      OccurrenceKeptByAll(ReplaceAll(s, u, m[u]), m, order[1..], t);
    }
  }

  /** Replacing something that occurs by something else changes the text. */
  lemma {:induction false} ReplacingChanges(s: string, t: string, v: string)
    requires t != ""
    ensures |v| >= |t| ==> |ReplaceAll(s, t, v)| >= |s|
    ensures |v| <= |t| ==> |ReplaceAll(s, t, v)| <= |s|
    ensures Occurs(s, t) && |v| > |t| ==> |ReplaceAll(s, t, v)| > |s|
    ensures Occurs(s, t) && |v| < |t| ==> |ReplaceAll(s, t, v)| < |s|
    ensures Occurs(s, t) && v != t ==> ReplaceAll(s, t, v) != s
    decreases |s|
  {
    if s != "" {
      if t <= s {
        ReplacingChanges(s[|t|..], t, v);
        var r := ReplaceAll(s, t, v);
        assert r[..|v|] == v && s[..|t|] == t;
      } else {
        ReplacingChanges(s[1..], t, v);
        assert ReplaceAll(s, t, v)[1..] == ReplaceAll(s[1..], t, v);
      }
    }
  }

  /** A template and two orders that show the order, when an occurrence of t can start in the value of s. */
  lemma PlainClashShows(m: map<string, string>, s: string, t: string)
    returns (pieces: seq<Piece>, a: seq<string>, b: seq<string>)
    requires (forall k | k in m :: IsToken(k)) && s in m && t in m && s != t && m[t] != t && Meets(m[s], t)
    ensures WellFormed(pieces) && IsOrder(m, a) && IsOrder(m, b)
    ensures ReplaceInOrder(Render(pieces), m, a) != ReplaceInOrder(Render(pieces), m, b)
  {
    var rest := Completion(m[s], t);
    pieces := [Token(s), Literal(rest)];
    var others := SomeOrder(m - {s, t});
    a, b := [s] + others + [t], [t] + ([s] + others);
    OrdersAround(m, s, t, others);
    TwoPieces(s, rest);
    var text := ReplaceInOrder(m[s] + rest, m, others);
    FirstReplaced(m, s, t, rest, others);
    OccurrenceKeptByAll(m[s] + rest, m, others, t);
    ReplaceOneMore(s + rest, m, [s] + others, t);
    ReplacingChanges(text, t, m[t]);
  }

  /** What is to be put after a text for t to occur. */
  lemma Completion(text: string, t: string) returns (rest: string)
    requires IsToken(t) && Meets(text, t)
    ensures '$' !in rest && Occurs(text + rest, t)
  {
    var i :| 0 <= i < |text| && (t <= text[i..] || text[i..] <= t);
    rest := if t <= text[i..] then "" else t[|text[i..]|..];
    assert (text + rest)[i..] == text[i..] + rest;
    assert t <= (text + rest)[i..];
    OccursAt(text + rest, t, i);
  }

  lemma OrdersAround(m: map<string, string>, s: string, t: string, others: seq<string>)
    requires s in m && t in m && s != t && IsOrder(m - {s, t}, others)
    ensures IsOrder(m, [s] + others + [t]) && IsOrder(m, [t] + ([s] + others))
  {
    var a, b := [s] + others + [t], [t] + ([s] + others);
    forall k ensures (k in a <==> k in m) && (k in b <==> k in m) {
      assert k in others <==> k in m - {s, t};
    }
  }

  lemma TwoPieces(s: string, rest: string)
    requires IsToken(s) && '$' !in rest
    ensures WellFormed([Token(s), Literal(rest)]) && Render([Token(s), Literal(rest)]) == s + rest
  {
    var pieces := [Token(s), Literal(rest)];
    assert pieces[1..] == [Literal(rest)] && pieces[1..][1..] == [];
    assert Render(pieces[1..]) == rest + "";
  }

  lemma FirstReplaced(m: map<string, string>, s: string, t: string, rest: string, others: seq<string>)
    requires IsToken(s) && IsToken(t) && s != t && s in m && t in m && '$' !in rest && forall u | u in others :: u in m
    ensures ReplaceInOrder(s + rest, m, [s] + others) == ReplaceInOrder(m[s] + rest, m, others)
    ensures ReplaceInOrder(s + rest, m, [t] + ([s] + others)) == ReplaceInOrder(m[s] + rest, m, others)
  {
    RestKept(rest, s, m[s]);
    RestKept(rest, t, m[t]);
    ReplaceAtToken(s, rest, s, m[s]);
    ReplaceAtToken(s, rest, t, m[t]);
    hide ReplaceAll, IsToken;
    assert ([s] + others)[1..] == others && ([t] + ([s] + others))[1..] == [s] + others;
  }

  lemma RestKept(rest: string, k: string, v: string)
    requires IsToken(k) && '$' !in rest
    ensures ReplaceAll(rest, k, v) == rest
  {
    NoDollarMeetsNothing(rest, k);
    ReplaceSkips(rest, "", k, v);
    assert rest + "" == rest;
  }

  /** Substitution is independent of the order, for every template, exactly when no occurrence of a placeholder that
      is replaced by something else can start in the value of another one. */
  lemma PlainOrderNeverShowsIff(m: map<string, string>)
    requires forall k | k in m :: IsToken(k)
    ensures (forall pieces, a, b | WellFormed(pieces) && IsOrder(m, a) && IsOrder(m, b) ::
               ReplaceInOrder(Render(pieces), m, a) == ReplaceInOrder(Render(pieces), m, b))
            <==> !PlainClash(m)
  {
    if PlainClash(m) {
      var s, t :| s in m && t in m && s != t && m[t] != t && Meets(m[s], t);
      var pieces, a, b := PlainClashShows(m, s, t);
    } else {
      hide IsToken, PlainClash, IsOrder, WellFormed;
      forall pieces, a, b | WellFormed(pieces) && IsOrder(m, a) && IsOrder(m, b)
        ensures ReplaceInOrder(Render(pieces), m, a) == ReplaceInOrder(Render(pieces), m, b)
      {
        OrderDoesNotMatter(pieces, m, a);
        OrderDoesNotMatter(pieces, m, b);
      }
    }
  }

  /** The texts ReplaceWithMap can return, for any iteration order. */
  ghost predicate CanBecome(str: string, m: map<string, string>, r: string)
  {
    exists order :: IsOrder(m, order) && r == ReplaceInOrder(str, m, order)
  }

  /** ReplaceWithMap: the loop takes the keys in an arbitrary order. */
  method ReplaceWithMap(str: string, m: map<string, string>) returns (r: string)
    ensures CanBecome(str, m, r)
  {
    ghost var order: seq<string> := [];
    r := str;
    var left := m.Keys;
    while left != {}
      invariant left <= m.Keys
      invariant forall k :: k in order <==> k in m.Keys - left
      invariant forall i, j | 0 <= i < j < |order| :: order[i] != order[j]
      invariant r == ReplaceInOrder(str, m, order)
      decreases left
    {
      var k :| k in left;
      assert k !in order;
      left := left - {k};
      ReplaceOneMore(str, m, order, k);
      if k != "" {
        r := ReplaceAll(r, k, m[k]);
      }
      order := order + [k];
    }
    assert IsOrder(m, order);
  }

  lemma {:induction false} ReplaceOneMore(s: string, m: map<string, string>, order: seq<string>, k: string)
    requires k in m && forall x | x in order :: x in m
    ensures var r := ReplaceInOrder(s, m, order);
            ReplaceInOrder(s, m, order + [k]) == if k != "" then ReplaceAll(r, k, m[k]) else r
    decreases |order|
  {
    if order != [] {
      assert (order + [k])[1..] == order[1..] + [k];
      var x := order[0];
      ReplaceOneMore(if x != "" then ReplaceAll(s, x, m[x]) else s, m, order[1..], k);
    } else {
      assert [k][1..] == [];
    }
  }

  /** Without the hypothesis the order shows: a value that is itself a placeholder is replaced in turn or
      not, depending on which of the two the loop takes first. */
  lemma OrderMattersForDollarValues(s: string, t: string, x: string)
    requires IsToken(s) && IsToken(t) && s != t
    ensures var m := map[s := t, t := x];
            && IsOrder(m, [s, t]) && ReplaceInOrder(s, m, [s, t]) == x
            && IsOrder(m, [t, s]) && ReplaceInOrder(s, m, [t, s]) == t
  {
    var m := map[s := t, t := x];
    Whole(s, t);
    Whole(t, x);
    ReplaceAtToken(s, "", t, x);
    assert s + "" == s && ReplaceAll("", t, x) == "";
    assert ReplaceAll(s, t, x) == s;
    TwoReplaced(s, m, s, t);
    TwoReplaced(s, m, t, s);
  }

  lemma TwoReplaced(text: string, m: map<string, string>, j: string, k: string)
    requires j != "" && k != "" && j in m && k in m
    ensures ReplaceInOrder(text, m, [j, k]) == ReplaceAll(ReplaceAll(text, j, m[j]), k, m[k])
  {
    hide ReplaceAll;
    var next := ReplaceAll(text, j, m[j]);
    assert [j, k][1..] == [k] && [k][1..] == [];
    assert ReplaceInOrder(next, m, [k]) == ReplaceInOrder(ReplaceAll(next, k, m[k]), m, []);
  }

  lemma Whole(k: string, v: string)
    requires k != ""
    ensures ReplaceAll(k, k, v) == v
  {
    assert k[|k|..] == "";
    assert v + "" == v;
  }
}
