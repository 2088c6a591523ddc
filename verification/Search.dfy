/**
 The search array of a list request (lib/entity/search.go), and how the database reads it: elements
 join with AND unless `condition` says OR, `lstr` and `rstr` are brackets, AND binds tighter than OR;
 LIKE patterns with the backslash escape (section 9.7.1 of the PostgreSQL manual).
 */
module Search {
  import opened Options
  import opened Text

  // ------------------------------------------------------------------------ LIKE

  /** s LIKE p. A trailing backslash is an error in PostgreSQL; no string matches it here. */
  predicate Like(p: string, s: string)
    decreases |p| + |s|
  {
    if p == "" then s == ""
    else if p[0] == '%' then Like(p[1..], s) || (s != "" && Like(p, s[1..]))
    else if s == "" then false
    else if p[0] == '_' then Like(p[1..], s[1..])
    else if p[0] == '\\' then |p| >= 2 && s[0] == p[1] && Like(p[2..], s[1..])
    else s[0] == p[0] && Like(p[1..], s[1..])
  }

  /** The pattern does not end in an escape with nothing to escape. */
  predicate NoDanglingEscape(p: string) {
    if p == "" then true
    else if p[0] == '\\' then |p| >= 2 && NoDanglingEscape(p[2..])
    else NoDanglingEscape(p[1..])
  }

  predicate Special(c: char) { c == '\\' || c == '%' || c == '_' }

  /** EscapeLike. */
  function EscapeLike(s: string): string {
    if s == "" then "" else Escaped(s[0]) + EscapeLike(s[1..])
  }

  predicate Contains(s: string, t: string) {
    t <= s || (s != "" && Contains(s[1..], t))
  }

  /** Contains is having t at some place. */
  lemma {:induction false} ContainsSomewhere(s: string, t: string)
    ensures Contains(s, t) <==> exists k :: 0 <= k <= |s| && t <= s[k..]
  {
    if t <= s {
      assert t <= s[0..];
    } else if s != "" {
      ContainsSomewhere(s[1..], t);
      if k :| 0 <= k <= |s| && t <= s[k..] {
        assert k > 0 && s[k..] == s[1..][k - 1..];
      }
      if k :| 0 <= k <= |s[1..]| && t <= s[1..][k..] {
        assert s[k + 1..] == s[1..][k..];
      }
    }
  }

  lemma {:induction false} PercentMatchesAll(s: string)
    ensures Like("%", s)
  {
    if s != "" {
      PercentMatchesAll(s[1..]);
    }
  }

  function Escaped(c: char): string { if Special(c) then ['\\', c] else [c] }

  lemma LikeEscaped(c: char, p: string, s: string)
    ensures Like(Escaped(c) + p, s) <==> s != "" && s[0] == c && Like(p, s[1..])
  {
    assert (Escaped(c) + p)[|Escaped(c)|..] == p;
  }

  lemma PrefixCons(t: string, s: string)
    requires t != ""
    ensures t <= s <==> s != "" && t[0] == s[0] && t[1..] <= s[1..]
    ensures t <= s ==> s[1..][|t[1..]|..] == s[|t|..]
  {
    assert t == [t[0]] + t[1..];
    if s != "" {
      assert s == [s[0]] + s[1..];
    }
  }

  /** An escaped text is matched by itself and nothing else. */
  lemma {:induction false} EscapedIsLiteral(t: string, q: string, s: string)
    ensures Like(EscapeLike(t) + q, s) <==> t <= s && Like(q, s[|t|..])
  {
    if t == "" {
      assert EscapeLike(t) + q == q;
    } else {
      Regroup(Escaped(t[0]), EscapeLike(t[1..]), q);
      LikeEscaped(t[0], EscapeLike(t[1..]) + q, s);
      PrefixCons(t, s);
      if s != "" {
        EscapedIsLiteral(t[1..], q, s[1..]);
      }
    }
  }

  /** The pattern SearchOf sends for a term. */
  function Pattern(t: string): string { "%" + EscapeLike(t) + "%" }

  /** EscapeLike is literal: `%` + EscapeLike(t) + `%` matches exactly the strings that contain t. */
  lemma {:induction false} PatternMatchesContaining(t: string, s: string)
    ensures Like(Pattern(t), s) <==> Contains(s, t)
  {
    var p := Pattern(t);
    assert p[1..] == EscapeLike(t) + "%";
    EscapedIsLiteral(t, "%", s);
    if t <= s {
      PercentMatchesAll(s[|t|..]);
    } else if s != "" {
      PatternMatchesContaining(t, s[1..]);
    }
  }

  lemma {:induction false} EscapedNoDangling(t: string, q: string)
    requires NoDanglingEscape(q)
    ensures NoDanglingEscape(EscapeLike(t) + q)
  {
    if t == "" {
      assert EscapeLike(t) + q == q;
    } else {
      var head, rest := Escaped(t[0]), EscapeLike(t[1..]) + q;
      Regroup(head, EscapeLike(t[1..]), q);
      EscapedNoDangling(t[1..], q);
      assert (head + rest)[|head|..] == rest;
    }
  }

  /** The pattern never ends in a dangling escape, whatever the term. */
  lemma PatternNoDangling(t: string)
    ensures NoDanglingEscape(Pattern(t))
  {
    assert "%"[1..] == "";
    EscapedNoDangling(t, "%");
    assert Pattern(t)[1..] == EscapeLike(t) + "%";
  }

  // ----------------------------------------------------------------------- ILIKE

  function Fold(fold: char -> char, s: string): string {
    if s == "" then "" else [fold(s[0])] + Fold(fold, s[1..])
  }

  /** A case folding that leaves the three special characters alone and makes no new ones. */
  ghost predicate KeepsSpecials(fold: char -> char) {
    forall c {:trigger fold(c)} :: (Special(c) ==> fold(c) == c) && (Special(fold(c)) ==> fold(c) == c)
  }

  predicate ILike(fold: char -> char, p: string, s: string) { Like(Fold(fold, p), Fold(fold, s)) }

  lemma {:induction false} FoldConcat(fold: char -> char, a: string, b: string)
    ensures Fold(fold, a + b) == Fold(fold, a) + Fold(fold, b)
  {
    if a == "" {
      assert a + b == b;
    } else {
      assert (a + b)[1..] == a[1..] + b;
      FoldConcat(fold, a[1..], b);
    }
  }

  lemma FoldHead(fold: char -> char, c: char)
    requires KeepsSpecials(fold)
    ensures Special(fold(c)) <==> Special(c)
    ensures Fold(fold, Escaped(c)) == Escaped(fold(c))
  {
    assert fold('\\') == '\\';
    assert ['\\', c][1..] == [c] && [c][1..] == "";
    assert Fold(fold, [c]) == [fold(c)];
  }

  lemma {:induction false} FoldEscape(fold: char -> char, t: string)
    requires KeepsSpecials(fold)
    ensures Fold(fold, EscapeLike(t)) == EscapeLike(Fold(fold, t))
  {
    if t != "" {
      FoldConcat(fold, Escaped(t[0]), EscapeLike(t[1..]));
      FoldEscape(fold, t[1..]);
      FoldHead(fold, t[0]);
      var u := Fold(fold, t);
      assert u[0] == fold(t[0]) && u[1..] == Fold(fold, t[1..]);
    }
  }

  /** The same under ILIKE: exactly the strings that contain the term but for case. */
  lemma PatternMatchesFolded(fold: char -> char, t: string, s: string)
    requires KeepsSpecials(fold)
    ensures ILike(fold, Pattern(t), s) <==> Contains(Fold(fold, s), Fold(fold, t))
  {
    FoldConcat(fold, "%" + EscapeLike(t), "%");
    FoldConcat(fold, "%", EscapeLike(t));
    FoldEscape(fold, t);
    assert "%"[1..] == "" && fold('%') == '%';
    assert Fold(fold, "%") == "%";
    assert Fold(fold, Pattern(t)) == Pattern(Fold(fold, t));
    PatternMatchesContaining(Fold(fold, t), Fold(fold, s));
  }

  // ------------------------------------------------------------- the search array

  /** lib/query's Condition. */
  datatype Condition = Condition(field: string, compare: string, value: string, valarr: seq<string>)

  /** One element of api.sql()'s search array: `condition` is "OR" or left out, `lstr` "(" or left
      out, `rstr` ")" or left out. */
  datatype Element = Element(orBefore: bool, test: Condition, opens: bool, closes: bool)

  datatype Token = And | Or | Open | Close | Atom(test: Condition)

  /** An element by itself: its test and its brackets. */
  function Own(e: Element): seq<Token> {
    (if e.opens then [Open] else []) + [Atom(e.test)] + (if e.closes then [Close] else [])
  }

  function Joiner(e: Element): Token { if e.orBefore then Or else And }

  /** The array as SQL text. */
  function Tokens(es: seq<Element>): seq<Token> {
    if es == [] then []
    else if |es| == 1 then Own(es[0])
    else Own(es[0]) + ([Joiner(es[1])] + Tokens(es[1..]))
  }

  /** A value read off the front of the text, and the text left. */
  datatype Read = Read(value: bool, rest: seq<Token>)

  /** expression ::= conjunction { OR conjunction } */
  function ReadOr(ts: seq<Token>, h: Condition -> bool): (r: Option<Read>)
    ensures r.Some? ==> |r.value.rest| < |ts|
    decreases |ts|, 2
  {
    match ReadAnd(ts, h)
    case None => None
    case Some(Read(v, rest)) =>
      if rest != [] && rest[0].Or? then
        match ReadOr(rest[1..], h)
        case None => None
        case Some(Read(w, rest')) => Some(Read(v || w, rest'))
      else Some(Read(v, rest))
  }

  /** conjunction ::= factor { AND factor } */
  function ReadAnd(ts: seq<Token>, h: Condition -> bool): (r: Option<Read>)
    ensures r.Some? ==> |r.value.rest| < |ts|
    decreases |ts|, 1
  {
    match ReadFactor(ts, h)
    case None => None
    case Some(Read(v, rest)) =>
      if rest != [] && rest[0].And? then
        match ReadAnd(rest[1..], h)
        case None => None
        case Some(Read(w, rest')) => Some(Read(v && w, rest'))
      else Some(Read(v, rest))
  }

  /** factor ::= test | ( expression ) */
  function ReadFactor(ts: seq<Token>, h: Condition -> bool): (r: Option<Read>)
    ensures r.Some? ==> |r.value.rest| < |ts|
    decreases |ts|, 0
  {
    if ts == [] then None
    else if ts[0].Atom? then Some(Read(h(ts[0].test), ts[1..]))
    else if ts[0].Open? then
      match ReadOr(ts[1..], h)
      case None => None
      case Some(Read(v, rest)) => if rest != [] && rest[0].Close? then Some(Read(v, rest[1..])) else None
    else None
  }

  /** What the database makes of an array, when its text reads as one expression. */
  function Reads(es: seq<Element>, h: Condition -> bool): Option<bool> {
    match ReadOr(Tokens(es), h)
    case None => None
    case Some(Read(v, rest)) => if rest == [] then Some(v) else None
  }

  // -------------------------------------------------------------------- SearchOf

  function Filter(c: Condition): Element { Element(false, c, false, false) }

  /** Element i of the OR group over the fields. */
  function Match(fields: seq<string>, value: string, i: nat): Element
    requires i < |fields|
  {
    Element(i > 0, Condition(fields[i], "IKE", value, []), i == 0, i == |fields| - 1)
  }

  function Filters(cs: seq<Condition>): seq<Element> {
    if cs == [] then [] else [Filter(cs[0])] + Filters(cs[1..])
  }

  /** The OR group from field k on. */
  function Group(fields: seq<string>, value: string, k: nat): seq<Element>
    requires k <= |fields|
    decreases |fields| - k
  {
    if k == |fields| then [] else [Match(fields, value, k)] + Group(fields, value, k + 1)
  }

  /** The term a request carries: q trimmed, nothing when there is no field to match it. */
  function TermOf(q: string, fields: seq<string>): string { if fields == [] then "" else Trim(q) }

  /** SearchOf, up to the JSON encoding of the array. */
  method SearchOf(search: seq<Condition>, q: string, fields: seq<string>) returns (r: Option<seq<Element>>)
    ensures r.None? <==> search == [] && (fields == [] || Trim(q) == "")
    ensures r.Some? ==> r.value == ArrayOf(search, TermOf(q, fields), fields)
  {
    var term := Trim(q);
    if |fields| == 0 {
      term := "";
    }
    if |search| == 0 && term == "" {
      return None;
    }
    var out: seq<Element> := [];
    FiltersAt(search);
    for i := 0 to |search|
      invariant out == Filters(search)[..i]
    {
      out := out + [Filter(search[i])];
    }
    if term != "" {
      var group := OrGroup(fields, "%" + EscapeLike(term) + "%");
      out := out + group;
    }
    r := Some(out);
  }

  /** SearchOf's second loop. */
  method OrGroup(fields: seq<string>, value: string) returns (out: seq<Element>)
    requires fields != []
    ensures out == Group(fields, value, 0)
  {
    out := [];
    ghost var group := Group(fields, value, 0);
    GroupAt(fields, value, 0, 0);
    for i := 0 to |fields|
      invariant out == group[..i]
    {
      var c := Element(false, Condition(fields[i], "IKE", value, []), false, false);
      if i > 0 {
        c := c.(orBefore := true);
      }
      if i == 0 {
        c := c.(opens := true);
      }
      if i == |fields| - 1 {
        c := c.(closes := true);
      }
      GroupAt(fields, value, 0, i);
      assert c == group[i];
      out := out + [c];
    }
  }

  lemma {:induction false} FiltersAt(cs: seq<Condition>)
    ensures |Filters(cs)| == |cs| && forall i :: 0 <= i < |cs| ==> Filters(cs)[i] == Filter(cs[i])
  {
    if cs != [] {
      FiltersAt(cs[1..]);
      forall i | 1 <= i < |cs| ensures Filters(cs)[i] == Filter(cs[i]) {
        assert Filters(cs)[i] == Filters(cs[1..])[i - 1];
      }
    }
  }

  lemma {:induction false} GroupAt(fields: seq<string>, value: string, k: nat, i: nat)
    requires k <= i < |fields|
    ensures |Group(fields, value, k)| == |fields| - k && Group(fields, value, k)[i - k] == Match(fields, value, i)
    decreases |fields| - k
  {
    if k < i {
      GroupAt(fields, value, k + 1, i);
    } else if k + 1 < |fields| {
      GroupAt(fields, value, k + 1, i + 1);
    }
  }

  predicate All(cs: seq<Condition>, h: Condition -> bool) { forall i :: 0 <= i < |cs| ==> h(cs[i]) }

  /** Some field passes the ILIKE test. */
  predicate AnyField(fields: seq<string>, value: string, h: Condition -> bool) {
    exists i :: 0 <= i < |fields| && h(Condition(fields[i], "IKE", value, []))
  }

  // The text of the two halves of the array, and how each reads.

  function Ands(cs: seq<Condition>): seq<Token> {
    if cs == [] then [] else [Atom(cs[0]), And] + Ands(cs[1..])
  }

  function Test(fields: seq<string>, value: string, k: nat): Condition
    requires k < |fields|
  {
    Condition(fields[k], "IKE", value, [])
  }

  lemma TokensCons(e: Element, es: seq<Element>)
    requires es != []
    ensures Tokens([e] + es) == Own(e) + ([Joiner(es[0])] + Tokens(es))
  {
    assert ([e] + es)[1..] == es;
  }

  lemma RegroupTokens(a: Token, b: Token, x: seq<Token>, y: seq<Token>)
    ensures [a] + ([b] + (x + y)) == ([a, b] + x) + y
  {
  }

  lemma {:induction false} FilterTokens(cs: seq<Condition>, es: seq<Element>)
    requires es != [] && !es[0].orBefore
    ensures Tokens(Filters(cs) + es) == Ands(cs) + Tokens(es)
    decreases |cs|
  {
    if cs == [] {
      assert Filters(cs) + es == es;
    } else {
      var more := Filters(cs[1..]) + es;
      assert Filters(cs) + es == [Filter(cs[0])] + more;
      FilterTokens(cs[1..], es);
      TokensCons(Filter(cs[0]), more);
      assert Own(Filter(cs[0])) == [Atom(cs[0])] && Joiner(more[0]) == And;
      RegroupTokens(Atom(cs[0]), And, Ands(cs[1..]), Tokens(es));
    }
  }

  lemma {:induction false} ReadAnds(cs: seq<Condition>, ts: seq<Token>, h: Condition -> bool, w: bool)
    requires ReadAnd(ts, h) == Some(Read(w, []))
    ensures ReadAnd(Ands(cs) + ts, h) == Some(Read(All(cs, h) && w, []))
    decreases |cs|
  {
    if cs == [] {
      assert Ands(cs) + ts == ts;
    } else {
      ReadAnds(cs[1..], ts, h, w);
      var us := Ands(cs) + ts;
      assert us == [Atom(cs[0]), And] + (Ands(cs[1..]) + ts);
      assert ReadFactor(us, h) == Some(Read(h(cs[0]), us[1..])) && us[1..][0] == And;
      assert us[1..][1..] == Ands(cs[1..]) + ts;
      assert All(cs, h) == (h(cs[0]) && All(cs[1..], h));
    }
  }

  predicate AnyFrom(fields: seq<string>, value: string, k: nat, h: Condition -> bool)
    requires k < |fields|
    decreases |fields| - k
  {
    h(Test(fields, value, k)) || (k < |fields| - 1 && AnyFrom(fields, value, k + 1, h))
  }

  lemma {:induction false} AnyFromExists(fields: seq<string>, value: string, k: nat, h: Condition -> bool)
    requires k < |fields|
    ensures AnyFrom(fields, value, k, h) <==> exists i :: k <= i < |fields| && h(Condition(fields[i], "IKE", value, []))
    decreases |fields| - k
  {
    if k < |fields| - 1 {
      AnyFromExists(fields, value, k + 1, h);
    }
  }

  lemma ReadLast(c: Condition, h: Condition -> bool)
    ensures ReadOr([Atom(c)] + [Close], h) == Some(Read(h(c), [Close]))
  {
    var ts := [Atom(c)] + [Close];
    assert ReadFactor(ts, h) == Some(Read(h(c), ts[1..])) && ts[1..] == [Close];
  }

  lemma ReadNext(c: Condition, more: seq<Token>, h: Condition -> bool, w: bool)
    requires ReadOr(more, h) == Some(Read(w, [Close]))
    ensures ReadOr([Atom(c)] + ([Or] + more), h) == Some(Read(h(c) || w, [Close]))
  {
    var ts := [Atom(c)] + ([Or] + more);
    assert ReadFactor(ts, h) == Some(Read(h(c), ts[1..])) && ts[1..] == [Or] + more && ts[1..][1..] == more;
  }

  /** The group from its second field on reads as the disjunction of its tests, up to the bracket. */
  lemma {:induction false} ReadTail(fields: seq<string>, value: string, k: nat, h: Condition -> bool)
    requires 0 < k < |fields|
    ensures ReadOr(Tokens(Group(fields, value, k)), h) == Some(Read(AnyFrom(fields, value, k, h), [Close]))
    decreases |fields| - k
  {
    var e, c := Match(fields, value, k), Test(fields, value, k);
    if k == |fields| - 1 {
      assert Group(fields, value, k) == [e];
      assert Own(e) == [Atom(c)] + [Close];
      ReadLast(c, h);
    } else {
      var more := Group(fields, value, k + 1);
      ReadTail(fields, value, k + 1, h);
      TokensCons(e, more);
      assert Own(e) == [Atom(c)] && more[0] == Match(fields, value, k + 1);
      ReadNext(c, Tokens(more), h, AnyFrom(fields, value, k + 1, h));
    }
  }

  lemma ReadBracketed(inside: seq<Token>, h: Condition -> bool, v: bool)
    requires ReadOr(inside, h) == Some(Read(v, [Close]))
    ensures ReadAnd([Open] + inside, h) == Some(Read(v, []))
  {
    var ts := [Open] + inside;
    assert ts[1..] == inside && [Close][1..] == [];
    assert ReadFactor(ts, h) == Some(Read(v, []));
  }

  lemma ReadGroup(fields: seq<string>, value: string, h: Condition -> bool)
    requires fields != []
    ensures ReadAnd(Tokens(Group(fields, value, 0)), h) == Some(Read(AnyField(fields, value, h), []))
  {
    var e, c := Match(fields, value, 0), Test(fields, value, 0);
    AnyFromExists(fields, value, 0, h);
    if |fields| == 1 {
      assert Group(fields, value, 0) == [e];
      assert Own(e) == [Open] + ([Atom(c)] + [Close]);
      ReadLast(c, h);
      ReadBracketed([Atom(c)] + [Close], h, h(c));
    } else {
      var more := Group(fields, value, 1);
      ReadTail(fields, value, 1, h);
      TokensCons(e, more);
      assert Own(e) == [Open] + [Atom(c)] && more[0] == Match(fields, value, 1);
      ReadNext(c, Tokens(more), h, AnyFrom(fields, value, 1, h));
      ReadBracketed([Atom(c)] + ([Or] + Tokens(more)), h, AnyFrom(fields, value, 0, h));
      assert ([Open] + [Atom(c)]) + ([Or] + Tokens(more)) == [Open] + ([Atom(c)] + ([Or] + Tokens(more)));
    }
  }

  /** The array as SearchOf's contract gives it. */
  function ArrayOf(search: seq<Condition>, term: string, fields: seq<string>): seq<Element> {
    Filters(search) + if term == "" then [] else Group(fields, Pattern(term), 0)
  }

  lemma ReadWhole(es: seq<Element>, h: Condition -> bool, v: bool)
    requires ReadAnd(Tokens(es), h) == Some(Read(v, []))
    ensures Reads(es, h) == Some(v)
  {
  }

  lemma {:induction false} FiltersLast(cs: seq<Condition>)
    requires cs != []
    ensures Filters(cs) == Filters(cs[..|cs| - 1]) + [Filter(cs[|cs| - 1])]
    decreases |cs|
  {
    if |cs| > 1 {
      FiltersLast(cs[1..]);
      var init := cs[..|cs| - 1];
      assert init[1..] == cs[1..][..|cs| - 2];
    }
  }

  lemma FiltersMean(search: seq<Condition>, h: Condition -> bool)
    requires search != []
    ensures Reads(Filters(search), h) == Some(All(search, h))
  {
    var init, last := search[..|search| - 1], search[|search| - 1];
    var es := [Filter(last)];
    assert es[1..] == [] && Tokens(es) == [Atom(last)];
    assert ReadFactor([Atom(last)], h) == Some(Read(h(last), []));
    FiltersLast(search);
    FilterTokens(init, es);
    ReadAnds(init, Tokens(es), h, h(last));
    assert All(search, h) == (All(init, h) && h(last));
    ReadWhole(Filters(search), h, All(search, h));
  }

  /** SearchOf preserves meaning: read with SQL precedence, the array holds exactly when every filter
      holds and, when there is a term, some field passes; for any number of either. */
  lemma ArrayMeans(search: seq<Condition>, term: string, fields: seq<string>, h: Condition -> bool)
    requires search != [] || term != ""
    requires term != "" ==> fields != []
    ensures Reads(ArrayOf(search, term, fields), h) ==
            Some(All(search, h) && (term != "" ==> AnyField(fields, Pattern(term), h)))
  {
    if term == "" {
      assert ArrayOf(search, term, fields) == Filters(search);
      FiltersMean(search, h);
    } else {
      var group := Group(fields, Pattern(term), 0);
      ReadGroup(fields, Pattern(term), h);
      FilterTokens(search, group);
      ReadAnds(search, Tokens(group), h, AnyField(fields, Pattern(term), h));
      ReadWhole(ArrayOf(search, term, fields), h, All(search, h) && AnyField(fields, Pattern(term), h));
    }
  }

  // ------------------------------------------------------------------------- rows

  type Row = map<string, string>

  /** How a test is decided on a row: ILIKE here, the other operators by whatever the database does. */
  predicate Holds(row: Row, fold: char -> char, other: Condition -> bool, c: Condition) {
    if c.compare == "IKE" then c.field in row && ILike(fold, c.value, row[c.field]) else other(c)
  }

  /** What the request asks of a row: every filter, and the term in some field. */
  ghost predicate Asked(search: seq<Condition>, term: string, fields: seq<string>, row: Row, fold: char -> char, other: Condition -> bool) {
    && (forall i :: 0 <= i < |search| ==> Holds(row, fold, other, search[i]))
    && (term != "" ==> exists i :: 0 <= i < |fields| && fields[i] in row && Contains(Fold(fold, row[fields[i]]), Fold(fold, term)))
  }

  /** The rows a search array selects are the rows the request asks for. */
  lemma SearchSelects(search: seq<Condition>, q: string, fields: seq<string>, row: Row, fold: char -> char, other: Condition -> bool)
    requires KeepsSpecials(fold)
    requires search != [] || TermOf(q, fields) != ""
    ensures Reads(ArrayOf(search, TermOf(q, fields), fields), c => Holds(row, fold, other, c)) ==
            Some(Asked(search, TermOf(q, fields), fields, row, fold, other))
  {
    var term, h := TermOf(q, fields), (c: Condition) => Holds(row, fold, other, c);
    ArrayMeans(search, term, fields, h);
    forall i | 0 <= i < |fields| && fields[i] in row
      ensures h(Condition(fields[i], "IKE", Pattern(term), [])) <==> Contains(Fold(fold, row[fields[i]]), Fold(fold, term))
    {
      PatternMatchesFolded(fold, term, row[fields[i]]);
    }
    assert AnyField(fields, Pattern(term), h) <==>
      exists i :: 0 <= i < |fields| && fields[i] in row && Contains(Fold(fold, row[fields[i]]), Fold(fold, term));
  }
}
