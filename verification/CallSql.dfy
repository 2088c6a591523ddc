/**
 The direct call of a database function by named arguments (lib/pgtx/call.go, callSQL), and a reader
 of the statement it builds.
 */
module CallSql {
  import opened Options
  import opened Text

  // ------------------------------------------------------------------ names and types

  /** sqlTypes, the types a value may be pinned to. */
  function SqlTypes(): set<string> {
    {"uuid", "text", "integer", "bigint", "smallint", "numeric", "boolean", "date", "timestamp", "timestamptz", "json", "jsonb"}
  }

  /** All that matters of the list: every type is a word, so a cast ends where its name does. */
  predicate TypeList(types: set<string>) { forall t :: t in types ==> NameChars(t) }

  lemma SqlTypesAreWords()
    ensures TypeList(SqlTypes())
  {
  }

  function FunctionName(fn: string): string { if "api." <= fn then fn[4..] else fn }

  // --------------------------------------------------------------------- the statement

  /** An argument: a value, a value pinned to a type (Typed), or a bare []byte. */
  datatype Arg<V> = Plain(v: V) | Typed(v: V, sqlType: string) | Bytes

  /** A named argument of the statement: the key, its placeholder, its cast. */
  datatype Bound = Bound(key: string, place: nat, cast: Option<string>)

  datatype Outcome<V> =
    | Ok(text: string, vals: seq<V>)
    | NotFunction
    | NotParameter(key: string)
    | BareBytes(key: string)
    | NotType(sqlType: string)

  function Cast(c: Option<string>): string { if c.None? then [] else "::" + c.value }

  function Part(b: Bound): string { "p" + b.key + " => $" + Decimal(b.place) + Cast(b.cast) }

  function Parts(bs: seq<Bound>): (r: seq<string>)
    ensures |r| == |bs|
  {
    if bs == [] then [] else [Part(bs[0])] + Parts(bs[1..])
  }

  function Head(): string { "SELECT to_json(t) FROM api." }

  function Statement(name: string, parts: seq<string>): string {
    Head() + name + "(" + Join(parts, ", ") + ") t"
  }

  predicate Refused<V>(a: Arg<V>, types: set<string>) { a.Bytes? || (a.Typed? && a.sqlType !in types) }

  /** What a refused argument is refused as. */
  function Refusal<V>(k: string, a: Arg<V>): (r: Outcome<V>)
    requires !a.Plain?
  {
    if a.Bytes? then BareBytes(k) else NotType(a.sqlType)
  }

  function Pin<V>(a: Arg<V>): Option<string> { if a.Typed? then Some(a.sqlType) else None }

  predicate Known<V>(keys: seq<string>, args: map<string, Arg<V>>) { forall i :: 0 <= i < |keys| ==> keys[i] in args }

  /** Every key of the map and no other. */
  ghost predicate Lists<V>(keys: seq<string>, args: map<string, Arg<V>>) {
    Known(keys, args) && forall k :: k in args ==> k in keys
  }

  lemma ListsAll<V>(keys: seq<string>, args: map<string, Arg<V>>)
    requires Elements(keys) == args.Keys
    ensures Lists(keys, args)
  {
    forall i | 0 <= i < |keys| ensures keys[i] in args { assert keys[i] in Elements(keys); }
    forall k | k in args ensures k in keys { assert k in Elements(keys); }
  }

  /** The arguments of the statement: the keys in their order, numbered from 1, with their pins. */
  function BoundsOf<V>(keys: seq<string>, args: map<string, Arg<V>>, n: nat): (bs: seq<Bound>)
    requires Known(keys, args)
    ensures |bs| == |keys|
    ensures forall i :: 0 <= i < |keys| ==> bs[i] == Bound(keys[i], n + i, Pin(args[keys[i]]))
  {
    if keys == [] then []
    else
      [Bound(keys[0], n, Pin(args[keys[0]]))] + BoundsOf(keys[1..], args, n + 1)
  }

  // ------------------------------------------------------------------ reading it back

  function While(p: char -> bool, s: string): string {
    if s == [] || !p(s[0]) then [] else [s[0]] + While(p, s[1..])
  }

  function Past(p: char -> bool, s: string): (r: string)
    ensures |r| <= |s|
  {
    if s == [] || !p(s[0]) then s else Past(p, s[1..])
  }

  function Expect(token: string, s: string): (r: Option<string>)
    ensures r.Some? ==> |r.value| + |token| == |s|
  {
    if token <= s then Some(s[|token|..]) else None
  }

  lemma {:induction false} WhileStops(p: char -> bool, w: string, s: string)
    requires forall i :: 0 <= i < |w| ==> p(w[i])
    requires s == [] || !p(s[0])
    ensures While(p, w + s) == w && Past(p, w + s) == s
  {
    if w == [] {
      assert w + s == s;
    } else {
      assert (w + s)[1..] == w[1..] + s;
      WhileStops(p, w[1..], s);
      assert [w[0]] + w[1..] == w;
    }
  }

  lemma {:induction false} WhileHolds(p: char -> bool, s: string)
    ensures forall i :: 0 <= i < |While(p, s)| ==> p(While(p, s)[i])
  {
    if s != [] && p(s[0]) {
      WhileHolds(p, s[1..]);
    }
  }

  function Digits(s: string): (r: string)
    ensures forall i :: 0 <= i < |r| ==> IsDigit(r[i])
  {
    WhileHolds(IsDigit, s);
    While(IsDigit, s)
  }

  datatype Read<T> = Read(value: T, rest: string) | Unreadable

  /** A cast, if there is one. */
  function ReadCast(s: string): (r: Read<Option<string>>)
    ensures r.Read? ==> |r.rest| <= |s|
  {
    match Expect("::", s)
    case None => Read(None, s)
    case Some(t) => Read(Some(While(IsNameChar, t)), Past(IsNameChar, t))
  }

  function ReadPlace(key: string, s: string): (r: Read<Bound>)
    ensures r.Read? ==> |r.rest| <= |s|
  {
    match Expect(" => $", s)
    case None => Unreadable
    case Some(t) =>
      var c := ReadCast(Past(IsDigit, t));
      Read(Bound(key, Value(Digits(t)), c.value), c.rest)
  }

  /** One `pkey => $n::type`. */
  function ReadBound(s: string): (r: Read<Bound>)
    ensures r.Read? ==> |r.rest| < |s|
  {
    match Expect("p", s)
    case None => Unreadable
    case Some(t) => ReadPlace(While(IsNameChar, t), Past(IsNameChar, t))
  }

  /** Arguments up to the closing of the statement. */
  function ReadBounds(s: string): Option<seq<Bound>>
    decreases |s|
  {
    match ReadBound(s)
    case Unreadable => None
    case Read(b, rest) =>
      if rest == ") t" then Some([b])
      else match Expect(", ", rest)
        case None => None
        case Some(t) => (match ReadBounds(t) case None => None case Some(bs) => Some([b] + bs))
  }

  function ReadArguments(s: string): Option<seq<Bound>> {
    if s == ") t" then Some([]) else ReadBounds(s)
  }

  /** The function called and its arguments. */
  function ReadCall(s: string): Option<(string, seq<Bound>)> {
    var after := Expect(Head(), s);
    if after.None? then None else ReadNamed(after.value)
  }

  function ReadNamed(s: string): Option<(string, seq<Bound>)> {
    var after := Expect("(", Past(IsNameChar, s));
    var bs := if after.None? then None else ReadArguments(after.value);
    if bs.None? then None else Some((While(IsNameChar, s), bs.value))
  }

  // --------------------------------------------------------------- the round trip

  predicate LegalBound(b: Bound) { IsIdent(b.key) && (b.cast.Some? ==> NameChars(b.cast.value)) }

  lemma ExpectToken(token: string, s: string)
    ensures Expect(token, token + s) == Some(s)
  {
  }

  /** The text after an argument: another one or the end. */
  predicate Closes(s: string) { s != [] && (s[0] == ',' || s[0] == ')') }

  lemma CastReadsBack(c: Option<string>, rest: string)
    requires c.Some? ==> NameChars(c.value)
    requires Closes(rest)
    ensures ReadCast(Cast(c) + rest) == Read(c, rest)
    ensures Cast(c) + rest != [] && !IsDigit((Cast(c) + rest)[0])
  {
    if c.None? {
      assert Cast(c) + rest == rest;
      assert !("::" <= rest);
    } else {
      assert Cast(c) + rest == "::" + (c.value + rest);
      ExpectToken("::", c.value + rest);
      WhileStops(IsNameChar, c.value, rest);
    }
  }

  lemma PlaceReadsBack(b: Bound, rest: string)
    requires LegalBound(b) && Closes(rest)
    ensures ReadPlace(b.key, " => $" + (Decimal(b.place) + (Cast(b.cast) + rest))) == Read(b, rest)
  {
    var tail := Cast(b.cast) + rest;
    var digits := Decimal(b.place);
    ExpectToken(" => $", digits + tail);
    CastReadsBack(b.cast, rest);
    WhileStops(IsDigit, digits, tail);
    DecimalValue(b.place);
  }

  lemma PartSpelled(b: Bound, rest: string)
    ensures Part(b) + rest == "p" + (b.key + (" => $" + (Decimal(b.place) + (Cast(b.cast) + rest))))
  {
    var k, a, d, c := b.key, " => $", Decimal(b.place), Cast(b.cast);
    Regroup("p" + k + a + d, c, rest);
    Regroup("p" + k + a, d, c + rest);
    Regroup("p" + k, a, d + (c + rest));
    Regroup("p", k, a + (d + (c + rest)));
  }

  lemma BoundReadsBack(b: Bound, rest: string)
    requires LegalBound(b) && Closes(rest)
    ensures ReadBound(Part(b) + rest) == Read(b, rest)
  {
    var after := " => $" + (Decimal(b.place) + (Cast(b.cast) + rest));
    PartSpelled(b, rest);
    ExpectToken("p", b.key + after);
    assert after[0] == ' ';
    WhileStops(IsNameChar, b.key, after);
    PlaceReadsBack(b, rest);
  }

  lemma JoinFirst(parts: seq<string>, sep: string, end: string)
    requires |parts| > 1
    ensures Join(parts, sep) + end == parts[0] + (sep + (Join(parts[1..], sep) + end))
  {
    Regroup(parts[0] + sep, Join(parts[1..], sep), end);
    Regroup(parts[0], sep, Join(parts[1..], sep) + end);
  }

  /** The list of arguments and the closing of the statement. */
  function Tail(bs: seq<Bound>): string { Join(Parts(bs), ", ") + ") t" }

  lemma TailFirst(bs: seq<Bound>)
    requires |bs| > 1
    ensures Tail(bs) == Part(bs[0]) + (", " + Tail(bs[1..]))
  {
    assert Parts(bs)[1..] == Parts(bs[1..]);
    JoinFirst(Parts(bs), ", ", ") t");
  }

  lemma MoreToRead(s: string)
    ensures Closes(", " + s) && ", " + s != ") t" && Expect(", ", ", " + s) == Some(s)
  {
    assert (", " + s)[0] == ',' && ") t"[0] == ')';
    ExpectToken(", ", s);
  }

  lemma LastReadsBack(b: Bound)
    requires LegalBound(b)
    ensures ReadBounds(Part(b) + ") t") == Some([b])
  {
    BoundReadsBack(b, ") t");
  }

  lemma FirstReadsBack(b: Bound, more: string)
    requires LegalBound(b) && ReadBounds(more).Some?
    ensures ReadBounds(Part(b) + (", " + more)) == Some([b] + ReadBounds(more).value)
  {
    MoreToRead(more);
    BoundReadsBack(b, ", " + more);
  }

  lemma {:induction false} BoundsReadBack(bs: seq<Bound>)
    requires bs != [] && forall i :: 0 <= i < |bs| ==> LegalBound(bs[i])
    ensures ReadBounds(Tail(bs)) == Some(bs)
  {
    if |bs| == 1 {
      LastReadsBack(bs[0]);
      assert Tail(bs) == Part(bs[0]) + ") t";
      assert bs == [bs[0]];
    } else {
      TailFirst(bs);
      BoundsReadBack(bs[1..]);
      FirstReadsBack(bs[0], Tail(bs[1..]));
      assert [bs[0]] + bs[1..] == bs;
    }
  }

  lemma ArgumentsReadBack(bs: seq<Bound>)
    requires forall i :: 0 <= i < |bs| ==> LegalBound(bs[i])
    ensures ReadArguments(Tail(bs)) == Some(bs)
  {
    if bs == [] {
      assert Tail(bs) == ") t";
    } else {
      BoundsReadBack(bs);
      NothingBound();
    }
  }

  lemma NothingBound()
    ensures ReadBounds(") t") == None
  {
    assert !("p" <= ") t") by { assert ") t"[0] == ')'; }
  }

  lemma StatementSpelled(head: string, name: string, open: string, args: string, end: string)
    ensures head + name + open + args + end == head + (name + (open + (args + end)))
  {
    Regroup(head + name + open, args, end);
    Regroup(head + name, open, args + end);
    Regroup(head, name, open + (args + end));
  }

  lemma NamedReadsBack(name: string, bs: seq<Bound>)
    requires NameChars(name) && forall i :: 0 <= i < |bs| ==> LegalBound(bs[i])
    ensures ReadNamed(name + ("(" + Tail(bs))) == Some((name, bs))
  {
    var rest := "(" + Tail(bs);
    assert rest[0] == '(';
    WhileStops(IsNameChar, name, rest);
    ExpectToken("(", Tail(bs));
    ArgumentsReadBack(bs);
  }

  /** Reading the statement back gives the function and its arguments as they were bound. */
  lemma StatementReadsBack(name: string, bs: seq<Bound>)
    requires NameChars(name) && forall i :: 0 <= i < |bs| ==> LegalBound(bs[i])
    ensures ReadCall(Statement(name, Parts(bs))) == Some((name, bs))
  {
    StatementSpelled(Head(), name, "(", Join(Parts(bs), ", "), ") t");
    ExpectToken(Head(), name + ("(" + Tail(bs)));
    NamedReadsBack(name, bs);
  }

  // ---------------------------------------------------------------------- callSQL

  /** `walk` is the order in which the map is walked: its keys, each once. */
  ghost predicate Walks<V>(walk: seq<string>, args: map<string, Arg<V>>) { Distinct(walk) && Elements(walk) == args.Keys }

  predicate NoneRefused<V>(args: map<string, Arg<V>>, types: set<string>) { forall k :: k in args ==> !Refused(args[k], types) }

  predicate Accepts<V>(name: string, args: map<string, Arg<V>>, types: set<string>) {
    IsIdent(name) && (forall k :: k in args ==> IsIdent(k)) && NoneRefused(args, types)
  }

  function CallText<V>(name: string, args: map<string, Arg<V>>, keys: seq<string>): string
    requires Known(keys, args)
  {
    Statement(name, Parts(BoundsOf(keys, args, 1)))
  }

  /** The i-th value belongs to the i-th key. */
  ghost predicate Valued<V>(vals: seq<V>, keys: seq<string>, args: map<string, Arg<V>>)
    requires Known(keys, args)
  {
    |vals| == |keys| && forall i :: 0 <= i < |keys| ==> !args[keys[i]].Bytes? && vals[i] == args[keys[i]].v
  }

  /** The first refused argument in key order is the i-th. */
  ghost predicate FirstRefused<V>(args: map<string, Arg<V>>, types: set<string>, keys: seq<string>, i: int)
    requires Known(keys, args)
  {
    0 <= i < |keys| && Refused(args[keys[i]], types) && forall j :: 0 <= j < i ==> !Refused(args[keys[j]], types)
  }

  ghost predicate RefusedAs<V>(r: Outcome<V>, args: map<string, Arg<V>>, types: set<string>, keys: seq<string>)
    requires Known(keys, args)
  {
    exists i :: FirstRefused(args, types, keys, i) && r == Refusal(keys[i], args[keys[i]])
  }

  /** callSQL; the code's list of types is SqlTypes(). */
  method CallSql<V>(fn: string, args: map<string, Arg<V>>, types: set<string>, walk: seq<string>) returns (r: Outcome<V>)
    requires Walks(walk, args)
    ensures Known(Sort(walk), args)
    ensures r.Ok? <==> Accepts(FunctionName(fn), args, types)
    ensures r.Ok? ==> r.text == CallText(FunctionName(fn), args, Sort(walk)) && Valued(r.vals, Sort(walk), args)
    ensures r.NotFunction? <==> !IsIdent(FunctionName(fn))
    ensures r.NotParameter? <==> IsIdent(FunctionName(fn)) && exists k :: k in args && !IsIdent(k)
    ensures r.NotParameter? ==> r.key in args && !IsIdent(r.key)
    ensures r.BareBytes? || r.NotType? ==> RefusedAs(r, args, types, Sort(walk))
  {
    var keys := SortedKeys(walk, args);
    var name := FunctionName(fn);
    if !IsIdent(name) {
      return NotFunction;
    }
    var bad := FirstNotIdent(walk, args);
    if bad.Some? {
      return NotParameter(bad.value);
    }
    var fault, parts, vals := Build(args, types, keys);
    r := if fault.Some? then fault.value else Ok(Statement(name, parts), vals);
  }

  method SortedKeys<V>(walk: seq<string>, ghost args: map<string, Arg<V>>) returns (keys: seq<string>)
    requires Walks(walk, args)
    ensures keys == Sort(walk) && Sorted(keys) && Lists(keys, args)
  {
    SortSorted(walk);
    ListsAll(Sort(walk), args);
    keys := Sort(walk);
  }

  /** callSQL's first loop, in the order the map is walked. */
  method FirstNotIdent<V>(walk: seq<string>, ghost args: map<string, Arg<V>>) returns (bad: Option<string>)
    requires Walks(walk, args)
    ensures bad.Some? ==> bad.value in args && !IsIdent(bad.value)
    ensures bad.None? ==> forall k :: k in args ==> IsIdent(k)
  {
    for j := 0 to |walk|
      invariant forall k :: k in walk[..j] ==> IsIdent(k)
    {
      assert walk[j] in Elements(walk);
      if !IsIdent(walk[j]) {
        return Some(walk[j]);
      }
      assert walk[..j + 1] == walk[..j] + [walk[j]];
    }
    assert walk[..|walk|] == walk && forall k :: k in args ==> k in Elements(walk);
    bad := None;
  }

  /** callSQL's second loop, over the sorted keys. */
  method Build<V>(args: map<string, Arg<V>>, types: set<string>, keys: seq<string>)
    returns (fault: Option<Outcome<V>>, parts: seq<string>, vals: seq<V>)
    requires Lists(keys, args)
    ensures fault.None? <==> NoneRefused(args, types)
    ensures fault.None? ==> parts == Parts(BoundsOf(keys, args, 1)) && Valued(vals, keys, args)
    ensures fault.Some? ==> (fault.value.BareBytes? || fault.value.NotType?) && RefusedAs(fault.value, args, types, keys)
  {
    parts, vals := [], [];
    for i := 0 to |keys|
      invariant forall j :: 0 <= j < i ==> !Refused(args[keys[j]], types)
      invariant |parts| == i && forall j :: 0 <= j < i ==> parts[j] == PartAt(keys, args, j)
      invariant |vals| == i && forall j :: 0 <= j < i ==> vals[j] == args[keys[j]].v
    {
      var a := args[keys[i]];
      if Refused(a, types) {
        assert FirstRefused(args, types, keys, i);
        return Some(Refusal(keys[i], a)), [], [];
      }
      parts, vals := parts + [PartAt(keys, args, i)], vals + [a.v];
    }
    AllSeen(keys, args, types);
    PartsAre(parts, keys, args);
    fault := None;
  }

  lemma AllSeen<V>(keys: seq<string>, args: map<string, Arg<V>>, types: set<string>)
    requires Lists(keys, args) && forall j :: 0 <= j < |keys| ==> !Refused(args[keys[j]], types)
    ensures NoneRefused(args, types)
  {
    forall k | k in args ensures !Refused(args[k], types) {
      var j :| 0 <= j < |keys| && keys[j] == k;
    }
  }

  /** The i-th argument, written. */
  function PartAt<V>(keys: seq<string>, args: map<string, Arg<V>>, i: nat): string
    requires Known(keys, args) && i < |keys|
  {
    Part(Bound(keys[i], i + 1, Pin(args[keys[i]])))
  }

  lemma PartsAre<V>(parts: seq<string>, keys: seq<string>, args: map<string, Arg<V>>)
    requires Known(keys, args)
    requires |parts| == |keys| && forall j :: 0 <= j < |keys| ==> parts[j] == PartAt(keys, args, j)
    ensures parts == Parts(BoundsOf(keys, args, 1))
  {
    var bs := BoundsOf(keys, args, 1);
    forall j | 0 <= j < |keys| ensures parts[j] == Parts(bs)[j] {
      PartsIndexed(bs, j);
    }
  }

  lemma {:induction false} PartsIndexed(bs: seq<Bound>, j: nat)
    requires j < |bs|
    ensures Parts(bs)[j] == Part(bs[j])
  {
    if j > 0 {
      PartsIndexed(bs[1..], j - 1);
    }
  }

  // -------------------------------------------------------- one call, one statement

  lemma BoundsLegal<V>(name: string, args: map<string, Arg<V>>, types: set<string>, keys: seq<string>, i: nat)
    requires Accepts(name, args, types) && TypeList(types) && Known(keys, args) && i < |keys|
    ensures LegalBound(BoundsOf(keys, args, 1)[i])
  {
    assert keys[i] in args;
  }

  /** The statement calls the function with every key once, in key order, placeholder i for the i-th
      key, the cast its pinned type. */
  lemma CallReadsBack<V>(name: string, args: map<string, Arg<V>>, types: set<string>, walk: seq<string>)
    requires Walks(walk, args) && Accepts(name, args, types) && TypeList(types)
    ensures Sorted(Sort(walk)) && Lists(Sort(walk), args)
    ensures ReadCall(CallText(name, args, Sort(walk))) == Some((name, BoundsOf(Sort(walk), args, 1)))
  {
    SortSorted(walk);
    ListsAll(Sort(walk), args);
    var bs := BoundsOf(Sort(walk), args, 1);
    forall i | 0 <= i < |bs| ensures LegalBound(bs[i]) {
      BoundsLegal(name, args, types, Sort(walk), i);
    }
    StatementReadsBack(name, bs);
  }

  ghost predicate SamePins<V, W>(a: map<string, Arg<V>>, b: map<string, Arg<W>>) {
    a.Keys == b.Keys && forall k :: k in a.Keys * b.Keys ==> Pin(a[k]) == Pin(b[k])
  }

  /** One call is one prepared statement: two accepted calls send the same text exactly when they name
      one function, the same keys and the same pins. Values and the order of the walk do not show. */
  lemma OneCallOneText<V, W>(f: string, a: map<string, Arg<V>>, walkA: seq<string>, g: string, b: map<string, Arg<W>>, walkB: seq<string>, types: set<string>)
    requires TypeList(types) && Walks(walkA, a) && Accepts(f, a, types) && Walks(walkB, b) && Accepts(g, b, types)
    ensures Known(Sort(walkA), a) && Known(Sort(walkB), b)
    ensures CallText(f, a, Sort(walkA)) == CallText(g, b, Sort(walkB)) <==> f == g && SamePins(a, b)
  {
    CallReadsBack(f, a, types, walkA);
    CallReadsBack(g, b, types, walkB);
    SameBounds(Sort(walkA), Sort(walkB), a, b);
  }

  lemma SameBounds<V, W>(ka: seq<string>, kb: seq<string>, a: map<string, Arg<V>>, b: map<string, Arg<W>>)
    requires Sorted(ka) && Sorted(kb) && Lists(ka, a) && Lists(kb, b)
    ensures BoundsOf(ka, a, 1) == BoundsOf(kb, b, 1) <==> SamePins(a, b)
  {
    if SamePins(a, b) {
      SameListing(ka, kb, a, b);
      SamePinned(ka, a, b);
    }
    if BoundsOf(ka, a, 1) == BoundsOf(kb, b, 1) {
      SameKeys(ka, kb, a, b);
    }
  }

  lemma SameListing<V, W>(ka: seq<string>, kb: seq<string>, a: map<string, Arg<V>>, b: map<string, Arg<W>>)
    requires Sorted(ka) && Sorted(kb) && Lists(ka, a) && Lists(kb, b) && a.Keys == b.Keys
    ensures ka == kb
  {
    assert Elements(ka) == a.Keys;
    assert Elements(kb) == b.Keys;
    SortedUnique(ka, kb);
  }

  lemma SamePinned<V, W>(keys: seq<string>, a: map<string, Arg<V>>, b: map<string, Arg<W>>)
    requires Known(keys, a) && Known(keys, b) && SamePins(a, b)
    ensures BoundsOf(keys, a, 1) == BoundsOf(keys, b, 1)
  {
    forall i | 0 <= i < |keys| ensures BoundsOf(keys, a, 1)[i] == BoundsOf(keys, b, 1)[i] {
      assert keys[i] in a.Keys * b.Keys;
    }
  }

  lemma SameKeys<V, W>(ka: seq<string>, kb: seq<string>, a: map<string, Arg<V>>, b: map<string, Arg<W>>)
    requires Lists(ka, a) && Lists(kb, b) && BoundsOf(ka, a, 1) == BoundsOf(kb, b, 1)
    ensures SamePins(a, b)
  {
    var ba, bb := BoundsOf(ka, a, 1), BoundsOf(kb, b, 1);
    forall i | 0 <= i < |ka| ensures ka[i] == kb[i] {
      assert ba[i].key == bb[i].key;
    }
    assert ka == kb;
    forall k | k in a.Keys * b.Keys ensures Pin(a[k]) == Pin(b[k]) {
      var i :| 0 <= i < |ka| && ka[i] == k;
      assert ba[i].cast == bb[i].cast;
    }
  }

  /** "api.f" and "f" name one function of schema api, and a name is never taken for another. */
  lemma OneFunctionTwoNames(f: string)
    requires IsIdent(f)
    ensures FunctionName("api." + f) == f && FunctionName(f) == f
  {
    assert ("api." + f)[4..] == f;
    assert "api."[3] == '.' && !IsNameChar('.');
    assert forall i :: 0 <= i < |f| ==> IsNameChar(f[i]) && f[i] != '.';
  }

  /** An accepted call goes to schema api and to the function named. */
  lemma CallIsOfApi<V>(fn: string, args: map<string, Arg<V>>, keys: seq<string>)
    requires Known(keys, args)
    ensures fn == FunctionName(fn) || fn == "api." + FunctionName(fn)
    ensures CallText(FunctionName(fn), args, keys) ==
      "SELECT to_json(t) FROM api." + FunctionName(fn) + "(" + Join(Parts(BoundsOf(keys, args, 1)), ", ") + ") t"
  {
    if "api." <= fn {
      assert fn == fn[..4] + fn[4..];
    }
  }
}
