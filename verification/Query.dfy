/**
 The list parameters of a request (lib/query/query.go): filter[…], sort, fields, page[…] translated
 for api.sql(). A key the list language owns and does not know is refused; the client's own are left.
 */
module Query {
  import opened Options
  import opened Text
  import opened Search

  const DEFAULT_LIMIT := 500
  const MAX_LIMIT := 1000

  datatype Params = Params(search: seq<Condition>, orderBy: seq<string>, fields: seq<string>, limit: int, offset: int)

  datatype Result<T> = Ok(value: T) | Err

  // ------------------------------------------------------------------- the regexps

  /** ^[a-z]+$ */
  predicate IsReserved(s: string) { s != "" && forall i :: 0 <= i < |s| ==> IsLower(s[i]) }

  function IndexOf(s: string, c: char): (i: nat)
    ensures i <= |s| && (forall j :: 0 <= j < i ==> s[j] != c) && (i < |s| ==> s[i] == c)
  {
    if s == "" || s[0] == c then 0 else 1 + IndexOf(s[1..], c)
  }

  /** The part before the first "[". */
  function Family(k: string): string { k[..IndexOf(k, '[')] }

  datatype Key = Key(page: bool, name: string, op: string)

  /** \[([^\]]+)\] at the front: what it holds and what follows. */
  function Bracket(s: string): Option<(string, string)> {
    if s == "" || s[0] != '[' then None
    else
      var i := IndexOf(s[1..], ']');
      if i == 0 || i == |s| - 1 then None else Some((s[1..1 + i], s[2 + i..]))
  }

  /** \[([^\]]+)\](?:\[([^\]]+)\])?$ */
  function Brackets(s: string): Option<(string, string)> {
    match Bracket(s)
    case None => None
    case Some((name, rest)) =>
      if rest == "" then Some((name, ""))
      else
        match Bracket(rest)
        case None => None
        case Some((op, end)) => if end == "" then Some((name, op)) else None
  }

  function Word(page: bool): string { if page then "page" else "filter" }

  /** ^(filter|page)\[([^\]]+)\](?:\[([^\]]+)\])?$ */
  function KeyOf(k: string): Option<Key> {
    var page := Word(true) <= k;
    if !page && !(Word(false) <= k) then None
    else
      match Brackets(k[|Word(page)|..])
      case None => None
      case Some((name, op)) => Some(Key(page, name, op))
  }

  function InBrackets(name: string, op: string): string {
    "[" + name + "]" + if op == "" then "" else "[" + op + "]"
  }

  /** The parameter name of a key. */
  function NameOf(k: Key): string { Word(k.page) + InBrackets(k.name, k.op) }

  lemma IndexOfFirst(a: string, c: char, b: string)
    requires Lacks(a, c)
    ensures IndexOf(a + [c] + b, c) == |a|
  {
    var s, i := a + [c] + b, IndexOf(a + [c] + b, c);
    assert s[|a|] == c;
    assert forall j :: 0 <= j < |a| ==> s[j] == a[j] && s[j] != c;
  }

  lemma BracketReads(name: string, rest: string)
    ensures Bracket("[" + name + "]" + rest) == Some((name, rest)) <==> name != "" && Lacks(name, ']')
  {
    var s := "[" + name + "]" + rest;
    assert s[1..] == name + [']'] + rest;
    if Lacks(name, ']') {
      IndexOfFirst(name, ']', rest);
      assert s[1..1 + |name|] == name && s[2 + |name|..] == rest;
    } else {
      var i := IndexOf(s[1..], ']');
      assert exists j :: 0 <= j < |name| && name[j] == ']';
      var j :| 0 <= j < |name| && name[j] == ']';
      assert s[1..][j] == ']';
    }
  }

  lemma BracketShape(s: string)
    requires Bracket(s).Some?
    ensures var (name, rest) := Bracket(s).value; name != "" && Lacks(name, ']') && s == "[" + name + "]" + rest
  {
  }

  predicate WellMade(k: Key) { k.name != "" && Lacks(k.name, ']') && Lacks(k.op, ']') }

  lemma BracketsRead(name: string, op: string)
    requires name != "" && Lacks(name, ']') && Lacks(op, ']')
    ensures Brackets(InBrackets(name, op)) == Some((name, op))
  {
    var tail := if op == "" then "" else "[" + op + "]";
    BracketReads(name, tail);
    if op != "" {
      assert tail == "[" + op + "]" + "";
      BracketReads(op, "");
    }
  }

  lemma BracketsShape(s: string)
    requires Brackets(s).Some?
    ensures var (name, op) := Brackets(s).value; name != "" && Lacks(name, ']') && Lacks(op, ']') && s == InBrackets(name, op)
  {
    BracketShape(s);
    var (name, rest) := Bracket(s).value;
    if rest != "" {
      BracketShape(rest);
    }
  }

  /** Names and keys correspond one to one: a well-made key is read back from its name, and a name
      that reads at all is the name of the key it reads as. */
  lemma KeyRoundTrip(k: Key)
    requires WellMade(k)
    ensures KeyOf(NameOf(k)) == Some(k)
  {
    var s, word := NameOf(k), Word(k.page);
    BracketsRead(k.name, k.op);
    assert word <= s && s[|word|..] == InBrackets(k.name, k.op);
    assert s[0] == word[0];
  }

  lemma NameRoundTrip(s: string)
    requires KeyOf(s).Some?
    ensures WellMade(KeyOf(s).value) && NameOf(KeyOf(s).value) == s
  {
    var word := Word(KeyOf(s).value.page);
    BracketsShape(s[|word|..]);
    PrefixSplit(word, s);
  }

  lemma PrefixSplit(a: string, s: string)
    requires a <= s
    ensures s == a + s[|a|..]
  {
  }

  // ---------------------------------------------------------------------- numbers

  /** strconv.Atoi on a 64-bit platform. */
  function Atoi(s: string): Option<int> {
    var signed := s != "" && (s[0] == '-' || s[0] == '+');
    var digits := if signed then s[1..] else s;
    if digits == "" || exists i :: 0 <= i < |digits| && !IsDigit(digits[i]) then None
    else
      var n: int := if signed && s[0] == '-' then 0 - Value(digits) else Value(digits);
      if -0x8000_0000_0000_0000 <= n < 0x8000_0000_0000_0000 then Some(n) else None
  }

  // ------------------------------------------------------------------ one parameter

  /** operators. */
  function Operator(op: string): Option<string> {
    match op
    case "eq" => Some("EQL")
    case "ne" => Some("NEQ")
    case "lt" => Some("LSS")
    case "lte" => Some("LEQ")
    case "gt" => Some("GTR")
    case "gte" => Some("GEQ")
    case "like" => Some("LKE")
    case "ilike" => Some("IKE")
    case "in" => Some("")
    case "null" => Some("")
    case _ => None
  }

  /** condition. */
  function ConditionOf(field: string, operator: string, val: string): Result<Condition> {
    if !IsIdent(field) then Err
    else
      var op := if operator == "" then "eq" else operator;
      match Operator(op)
      case None => Err
      case Some(cmp) =>
        if op == "in" then Ok(Condition(field, "", "", Split(val, ',')))
        else if op == "null" then Ok(Condition(field, if val == "true" then "ISN" else "INN", "", []))
        else Ok(Condition(field, cmp, val, []))
  }

  /** page. */
  function Paged(p: Params, name: string, val: string): Result<Params> {
    var n := Atoi(val);
    if name == "limit" then
      if n.None? || n.value < 1 || n.value > MAX_LIMIT then Err else Ok(p.(limit := n.value))
    else if name == "offset" then
      if n.None? || n.value < 0 then Err else Ok(p.(offset := n.value))
    else Err
  }

  /** One element of sort=: the field, and the direction. */
  function OrderTerm(f: string): Result<string> {
    var desc := "-" <= f;
    var name := if desc then f[1..] else f;
    if IsIdent(name) then Ok(name + if desc then " DESC" else " ASC") else Err
  }

  function OrderTerms(fs: seq<string>): Result<seq<string>> {
    if fs == [] then Ok([])
    else
      match OrderTerm(fs[0])
      case Err => Err
      case Ok(t) =>
        match OrderTerms(fs[1..])
        case Err => Err
        case Ok(ts) => Ok([t] + ts)
  }

  predicate AllIdents(fs: seq<string>) { forall i :: 0 <= i < |fs| ==> IsIdent(fs[i]) }

  /** What one parameter does to the translation so far. */
  function Step(p: Params, k: string, val: string): Result<Params> {
    if k == "sort" then
      match OrderTerms(Split(val, ','))
      case Err => Err
      case Ok(ts) => Ok(p.(orderBy := p.orderBy + ts))
    else if k == "fields" then
      if AllIdents(Split(val, ',')) then Ok(p.(fields := p.fields + Split(val, ','))) else Err
    else if k == "filter" || k == "page" then Err
    else if "filter[" <= k || "page[" <= k then
      match KeyOf(k)
      case None => Err
      case Some(Key(true, name, _)) => Paged(p, name, val)
      case Some(Key(false, name, op)) =>
        match ConditionOf(name, op, val)
        case Err => Err
        case Ok(c) => Ok(p.(search := p.search + [c]))
    else if IsReserved(Family(k)) then Err
    else Ok(p)
  }

  type Values = map<string, seq<string>>

  /** url.ParseQuery gives every key at least one value. */
  predicate Given(v: Values) { forall k :: k in v ==> v[k] != [] }

  function Last(v: Values, k: string): string
    requires Given(v) && k in v
  {
    v[k][|v[k]| - 1]
  }

  predicate Keys(v: Values, ks: seq<string>) { forall i :: 0 <= i < |ks| ==> ks[i] in v }

  function Fold(p: Params, ks: seq<string>, v: Values): Result<Params>
    requires Given(v) && Keys(v, ks)
    decreases |ks|
  {
    if ks == [] then Ok(p)
    else
      match Step(p, ks[0], Last(v, ks[0]))
      case Err => Err
      case Ok(p') => Fold(p', ks[1..], v)
  }

  const NO_PARAMS := Params([], [], [], DEFAULT_LIMIT, 0)

  /** Parse; `order` is the order the map happens to be walked in. */
  method Parse(v: Values, order: seq<string>) returns (r: Result<Params>)
    requires Given(v) && Distinct(order) && Elements(order) == v.Keys
    ensures Keys(v, Sort(order)) && r == Fold(NO_PARAMS, Sort(order), v)
  {
    var p := NO_PARAMS;
    var keys := Sort(order);
    SortSorted(order);
    assert Keys(v, keys) by {
      forall i | 0 <= i < |keys| ensures keys[i] in v {
        assert keys[i] in Elements(keys);
      }
    }
    var i := 0;
    while i < |keys|
      invariant 0 <= i <= |keys|
      invariant Fold(p, keys[i..], v) == Fold(NO_PARAMS, keys, v)
    {
      var k := keys[i];
      var val := Last(v, k);
      assert keys[i..][0] == k && keys[i..][1..] == keys[i + 1..];
      var done := ParseOne(p, k, val);
      match done {
        case Err => return Err;
        case Ok(p') => p := p';
      }
      i := i + 1;
    }
    assert keys[i..] == [];
    r := Ok(p);
  }

  /** One turn of Parse's loop. */
  method ParseOne(p: Params, k: string, val: string) returns (r: Result<Params>)
    ensures r == Step(p, k, val)
  {
    if k == "sort" {
      r := ParseSort(p, val);
    } else if k == "fields" {
      r := ParseFields(p, val);
    } else {
      r := Step(p, k, val);
    }
  }

  /** The terms so far, before the outcome for the rest. */
  function After(done: seq<string>, rest: Result<seq<string>>): Result<seq<string>> {
    match rest case Err => Err case Ok(ts) => Ok(done + ts)
  }

  lemma AfterNext(done: seq<string>, fs: seq<string>)
    requires fs != [] && OrderTerm(fs[0]).Ok?
    ensures After(done, OrderTerms(fs)) == After(done + [OrderTerm(fs[0]).value], OrderTerms(fs[1..]))
  {
    if OrderTerms(fs[1..]).Ok? {
      var ts := OrderTerms(fs[1..]).value;
      assert done + ([OrderTerm(fs[0]).value] + ts) == (done + [OrderTerm(fs[0]).value]) + ts;
    }
  }

  method ParseSort(p: Params, val: string) returns (r: Result<Params>)
    ensures r == Step(p, "sort", val)
  {
    var fs := Split(val, ',');
    var orderBy := p.orderBy;
    assert fs[0..] == fs;
    for i := 0 to |fs|
      invariant After(p.orderBy, OrderTerms(fs)) == After(orderBy, OrderTerms(fs[i..]))
    {
      assert fs[i..][0] == fs[i] && fs[i..][1..] == fs[i + 1..];
      var dir, f := " ASC", fs[i];
      if "-" <= f {
        dir, f := " DESC", f[1..];
      }
      if !IsIdent(f) {
        return Err;
      }
      AfterNext(orderBy, fs[i..]);
      orderBy := orderBy + [f + dir];
    }
    assert fs[|fs|..] == [] && orderBy + [] == orderBy;
    r := Ok(p.(orderBy := orderBy));
  }

  method ParseFields(p: Params, val: string) returns (r: Result<Params>)
    ensures r == Step(p, "fields", val)
  {
    var fs := Split(val, ',');
    var fields := p.fields;
    for i := 0 to |fs|
      invariant fields == p.fields + fs[..i] && AllIdents(fs[..i])
    {
      if !IsIdent(fs[i]) {
        return Err;
      }
      fields := fields + [fs[i]];
      assert fs[..i] + [fs[i]] == fs[..i + 1];
    }
    assert fs[..|fs|] == fs;
    r := Ok(p.(fields := fields));
  }

  // --------------------------------------------------- what the whole translation is

  function Bare(f: string): string { if "-" <= f then f[1..] else f }

  predicate KnownOperator(op: string) {
    op in {"", "eq", "ne", "lt", "lte", "gt", "gte", "like", "ilike", "in", "null"}
  }

  /** A parameter the list language takes, or one that is not its own. */
  predicate Acceptable(k: string, val: string) {
    if k == "sort" then forall i :: 0 <= i < |Split(val, ',')| ==> IsIdent(Bare(Split(val, ',')[i]))
    else if k == "fields" then AllIdents(Split(val, ','))
    else if k == "filter" || k == "page" then false
    else if "filter[" <= k || "page[" <= k then KeyOf(k).Some? && AcceptableKey(KeyOf(k).value, val)
    else !IsReserved(Family(k))
  }

  predicate AcceptableKey(key: Key, val: string) {
    if !key.page then IsIdent(key.name) && KnownOperator(key.op)
    else
      var n := Atoi(val);
      n.Some? && ((key.name == "limit" && 1 <= n.value <= 1000) || (key.name == "offset" && 0 <= n.value))
  }

  predicate Keyed(k: string, page: bool) { KeyOf(k).Some? && KeyOf(k).value.page == page }

  /** The condition of an accepted filter key. */
  function Filtered(key: Key, val: string): Condition {
    match ConditionOf(key.name, key.op, val)
    case Ok(c) => c
    case Err => Condition(key.name, "", "", [])
  }

  function Described(f: string): string { Bare(f) + if "-" <= f then " DESC" else " ASC" }

  function Descriptions(fs: seq<string>): seq<string> { seq(|fs|, i requires 0 <= i < |fs| => Described(fs[i])) }

  /** The condition a parameter stands for, if it is a filter. */
  function Conditions(k: string, val: string): seq<Condition> {
    if Keyed(k, false) then [Filtered(KeyOf(k).value, val)] else []
  }

  /** What an accepted parameter adds. */
  function Added(p: Params, k: string, val: string): Params {
    Params(
      p.search + Conditions(k, val),
      p.orderBy + (if k == "sort" then Descriptions(Split(val, ',')) else []),
      p.fields + (if k == "fields" then Split(val, ',') else []),
      if Keyed(k, true) && KeyOf(k).value.name == "limit" && Atoi(val).Some? then Atoi(val).value else p.limit,
      if Keyed(k, true) && KeyOf(k).value.name == "offset" && Atoi(val).Some? then Atoi(val).value else p.offset)
  }

  lemma {:induction false} OrderTermsExact(fs: seq<string>)
    ensures OrderTerms(fs) ==
      if forall i :: 0 <= i < |fs| ==> IsIdent(Bare(fs[i])) then Ok(Descriptions(fs)) else Err
  {
    if fs != [] {
      OrderTermsExact(fs[1..]);
      assert OrderTerm(fs[0]) == if IsIdent(Bare(fs[0])) then Ok(Described(fs[0])) else Err;
      assert Descriptions(fs) == [Described(fs[0])] + Descriptions(fs[1..]);
      assert (forall i :: 0 <= i < |fs| ==> IsIdent(Bare(fs[i]))) <==>
             IsIdent(Bare(fs[0])) && forall i :: 0 <= i < |fs[1..]| ==> IsIdent(Bare(fs[1..][i]));
    }
  }

  /** A name that reads as a key starts with its word and a bracket. */
  lemma KeyPrefix(k: string)
    ensures Keyed(k, false) ==> "filter[" <= k && !("page[" <= k)
    ensures Keyed(k, true) ==> "page[" <= k && !("filter[" <= k)
    ensures KeyOf(k).Some? ==> k != "sort" && k != "fields" && k != "filter" && k != "page"
  {
    if KeyOf(k).Some? {
      var word := Word(KeyOf(k).value.page);
      assert word <= k && k[|word|..] != "" && k[|word|..][0] == '[' && |k[|word|..]| > 1;
      assert k[|word|] == '[' && k[0] == word[0];
    }
  }

  lemma ConditionExact(key: Key, val: string)
    ensures ConditionOf(key.name, key.op, val) ==
      if IsIdent(key.name) && KnownOperator(key.op) then Ok(Filtered(key, val)) else Err
  {
  }

  lemma Unchanged(p: Params)
    ensures p.(search := p.search + []) == p && p.(orderBy := p.orderBy + []) == p && p.(fields := p.fields + []) == p
    ensures p.search + [] == p.search && p.orderBy + [] == p.orderBy && p.fields + [] == p.fields
  {
  }

  lemma StepExact(p: Params, k: string, val: string)
    ensures Step(p, k, val) == if Acceptable(k, val) then Ok(Added(p, k, val)) else Err
  {
    KeyPrefix(k);
    Unchanged(p);
    if k == "sort" {
      OrderTermsExact(Split(val, ','));
    } else if KeyOf(k).Some? {
      ConditionExact(KeyOf(k).value, val);
    }
  }

  predicate AllAcceptable(ks: seq<string>, v: Values)
    requires Given(v) && Keys(v, ks)
  {
    forall i :: 0 <= i < |ks| ==> Acceptable(ks[i], Last(v, ks[i]))
  }

  function AllAdded(p: Params, ks: seq<string>, v: Values): Params
    requires Given(v) && Keys(v, ks)
    decreases |ks|
  {
    if ks == [] then p else AllAdded(Added(p, ks[0], Last(v, ks[0])), ks[1..], v)
  }

  /** Parse succeeds exactly when every parameter is acceptable by itself, and then adds them up. */
  lemma {:induction false} FoldExact(p: Params, ks: seq<string>, v: Values)
    requires Given(v) && Keys(v, ks)
    ensures Fold(p, ks, v) == if AllAcceptable(ks, v) then Ok(AllAdded(p, ks, v)) else Err
    decreases |ks|
  {
    if ks != [] {
      StepExact(p, ks[0], Last(v, ks[0]));
      FoldExact(Added(p, ks[0], Last(v, ks[0])), ks[1..], v);
      assert AllAcceptable(ks, v) <==> Acceptable(ks[0], Last(v, ks[0])) && AllAcceptable(ks[1..], v);
    }
  }

  /** The filter keys, in key order. */
  function FilterKeys(ks: seq<string>): (fs: seq<string>)
    ensures forall i :: 0 <= i < |fs| ==> fs[i] in ks && Keyed(fs[i], false)
    ensures forall k :: k in ks && Keyed(k, false) ==> k in fs
  {
    if ks == [] then [] else (if Keyed(ks[0], false) then [ks[0]] else []) + FilterKeys(ks[1..])
  }

  predicate Before(k: string, ks: seq<string>) { forall x :: x in ks ==> k != x && Leq(k, x) }

  lemma SortedSplits(ks: seq<string>)
    requires Sorted(ks) && ks != []
    ensures Sorted(ks[1..]) && Before(ks[0], ks[1..])
  {
    forall x | x in ks[1..] ensures ks[0] != x && Leq(ks[0], x) {
      var j :| 0 <= j < |ks[1..]| && ks[1..][j] == x;
      assert ks[j + 1] == x;
    }
  }

  lemma SortedCons(k: string, ks: seq<string>)
    requires Sorted(ks) && Before(k, ks)
    ensures Sorted([k] + ks)
  {
    assert forall i :: 0 <= i < |ks| ==> ks[i] in ks;
  }

  lemma {:induction false} FilterKeysSorted(ks: seq<string>)
    requires Sorted(ks)
    ensures Sorted(FilterKeys(ks))
  {
    if ks != [] {
      SortedSplits(ks);
      FilterKeysSorted(ks[1..]);
      var rest := FilterKeys(ks[1..]);
      assert forall x :: x in rest ==> x in ks[1..];
      if Keyed(ks[0], false) {
        SortedCons(ks[0], rest);
      } else {
        assert [] + rest == rest;
      }
    }
  }

  function FilterOf(v: Values, k: string): Condition
    requires Given(v) && k in v && Keyed(k, false)
  {
    Filtered(KeyOf(k).value, Last(v, k))
  }

  function Searched(v: Values, ks: seq<string>): seq<Condition>
    requires Given(v) && Keys(v, ks)
    decreases |ks|
  {
    if ks == [] then [] else Conditions(ks[0], Last(v, ks[0])) + Searched(v, ks[1..])
  }

  lemma {:induction false} SearchExact(p: Params, ks: seq<string>, v: Values)
    requires Given(v) && Keys(v, ks)
    ensures AllAdded(p, ks, v).search == p.search + Searched(v, ks)
    decreases |ks|
  {
    if ks != [] {
      var val := Last(v, ks[0]);
      SearchExact(Added(p, ks[0], val), ks[1..], v);
      Associative(p.search, Conditions(ks[0], val), Searched(v, ks[1..]));
    }
  }

  lemma Associative(a: seq<Condition>, b: seq<Condition>, c: seq<Condition>)
    ensures (a + b) + c == a + (b + c)
  {
  }

  /** The conditions are the filter keys', one by one. */
  ghost predicate Aligned(v: Values, fs: seq<string>, cs: seq<Condition>)
    requires Given(v)
  {
    |cs| == |fs| && forall i :: 0 <= i < |fs| ==> fs[i] in v && Keyed(fs[i], false) && cs[i] == FilterOf(v, fs[i])
  }

  lemma AlignedCons(v: Values, k: string, fs: seq<string>, cs: seq<Condition>)
    requires Given(v) && k in v && Keyed(k, false) && Aligned(v, fs, cs)
    ensures Aligned(v, [k] + fs, [FilterOf(v, k)] + cs)
  {
  }

  /** One condition per filter key, in key order. */
  lemma {:induction false} SearchedKeys(v: Values, ks: seq<string>)
    requires Given(v) && Keys(v, ks)
    ensures Aligned(v, FilterKeys(ks), Searched(v, ks))
    decreases |ks|
  {
    if ks != [] {
      SearchedKeys(v, ks[1..]);
      if Keyed(ks[0], false) {
        AlignedCons(v, ks[0], FilterKeys(ks[1..]), Searched(v, ks[1..]));
      } else {
        assert [] + FilterKeys(ks[1..]) == FilterKeys(ks[1..]) && [] + Searched(v, ks[1..]) == Searched(v, ks[1..]);
      }
    }
  }

  /** A direction on an identifier. */
  ghost predicate IsOrder(t: string) { exists f :: IsIdent(Bare(f)) && t == Described(f) }

  /** What is in bounds and well named, kept by every parameter. */
  ghost predicate Sane(p: Params) {
    && 1 <= p.limit <= 1000 && 0 <= p.offset
    && AllIdents(p.fields)
    && (forall i :: 0 <= i < |p.search| ==> IsIdent(p.search[i].field))
    && (forall i :: 0 <= i < |p.orderBy| ==> IsOrder(p.orderBy[i]))
  }

  lemma AddedSane(p: Params, k: string, val: string)
    requires Sane(p) && Acceptable(k, val)
    ensures Sane(Added(p, k, val))
  {
    KeyPrefix(k);
    AddedBounds(p, k, val);
    AddedSearch(p, k, val);
    AddedOrder(p, k, val);
  }

  lemma AddedBounds(p: Params, k: string, val: string)
    requires 1 <= p.limit <= MAX_LIMIT && 0 <= p.offset && Acceptable(k, val)
    ensures 1 <= Added(p, k, val).limit <= MAX_LIMIT && 0 <= Added(p, k, val).offset
  {
    KeyPrefix(k);
  }

  lemma AcceptedFilter(k: string, val: string)
    requires Acceptable(k, val) && Keyed(k, false)
    ensures IsIdent(KeyOf(k).value.name) && KnownOperator(KeyOf(k).value.op)
  {
    KeyPrefix(k);
  }

  lemma FilteredField(key: Key, val: string)
    ensures Filtered(key, val).field == key.name
  {
  }

  lemma AddedSearch(p: Params, k: string, val: string)
    requires Acceptable(k, val) && forall i :: 0 <= i < |p.search| ==> IsIdent(p.search[i].field)
    ensures forall i :: 0 <= i < |Added(p, k, val).search| ==> IsIdent(Added(p, k, val).search[i].field)
  {
    if Keyed(k, false) {
      AcceptedFilter(k, val);
      FilteredField(KeyOf(k).value, val);
    }
  }

  lemma AddedOrder(p: Params, k: string, val: string)
    requires Acceptable(k, val) && forall i :: 0 <= i < |p.orderBy| ==> IsOrder(p.orderBy[i])
    ensures forall i :: 0 <= i < |Added(p, k, val).orderBy| ==> IsOrder(Added(p, k, val).orderBy[i])
  {
    if k == "sort" {
      var fs := Split(val, ',');
      forall i | 0 <= i < |fs| ensures IsOrder(Descriptions(fs)[i]) {
        assert IsIdent(Bare(fs[i])) && Descriptions(fs)[i] == Described(fs[i]);
      }
    }
  }

  lemma {:induction false} AllAddedSane(p: Params, ks: seq<string>, v: Values)
    requires Given(v) && Keys(v, ks) && Sane(p) && AllAcceptable(ks, v)
    ensures Sane(AllAdded(p, ks, v))
    decreases |ks|
  {
    if ks != [] {
      AddedSane(p, ks[0], Last(v, ks[0]));
      AllAddedSane(Added(p, ks[0], Last(v, ks[0])), ks[1..], v);
    }
  }

  lemma AcceptableEach(v: Values, ks: seq<string>)
    requires Given(v) && Elements(ks) == v.Keys && Keys(v, ks)
    ensures AllAcceptable(ks, v) <==> forall k :: k in v ==> Acceptable(k, Last(v, k))
  {
    assert forall k :: k in v ==> k in Elements(ks);
  }

  /** The name begins with a family of a-z only: what stands before the first bracket, or all of it. */
  predicate IsOwn(k: string) { exists i :: 0 < i <= |k| && FamilyEnds(k, i) }

  predicate FamilyEnds(k: string, i: int) {
    0 < i <= |k| && (i == |k| || k[i] == '[') && forall j :: 0 <= j < i ==> 'a' <= k[j] <= 'z'
  }

  lemma OwnFamily(k: string)
    ensures IsReserved(Family(k)) <==> IsOwn(k)
  {
    var n := IndexOf(k, '[');
    assert Family(k) == k[..n];
    if IsReserved(Family(k)) {
      assert forall j :: 0 <= j < n ==> Family(k)[j] == k[j] && IsLower(k[j]);
      assert FamilyEnds(k, n);
    }
    if i :| FamilyEnds(k, i) {
      assert forall j :: 0 <= j < i ==> k[j] != '[';
      assert n == i;
      assert forall j :: 0 <= j < n ==> Family(k)[j] == k[j];
    }
  }

  lemma BracketedIsOwn(k: string)
    requires "filter[" <= k || "page[" <= k || k == "filter" || k == "page"
    ensures IsOwn(k)
  {
    if "filter[" <= k {
      assert k[..7] == "filter[" && k[6] == '[';
      assert k[..6] == "filter";
      assert forall j :: 0 <= j < 6 ==> k[j] == "filter"[j];
      assert FamilyEnds(k, 6);
    } else if "page[" <= k {
      assert k[..5] == "page[" && k[4] == '[';
      assert forall j :: 0 <= j < 4 ==> k[j] == "page"[j];
      assert FamilyEnds(k, 4);
    } else {
      assert FamilyEnds(k, |k|);
    }
  }

  /** A parameter that is neither sort, fields nor a well-made filter or page key is refused exactly when
      its family is of a-z only, and otherwise changes nothing. */
  lemma PassedOver(p: Params, k: string, val: string)
    requires k != "sort" && k != "fields" && KeyOf(k).None?
    ensures Step(p, k, val) == if IsOwn(k) then Err else Ok(p)
  {
    OwnFamily(k);
    if "filter[" <= k || "page[" <= k || k == "filter" || k == "page" {
      BracketedIsOwn(k);
    }
  }

  /** Parse loses no selection. It succeeds exactly when every parameter is acceptable; then there
      is one condition per filter key, in key order, translated from the key's last value, and
      limit, offset and every name are in bounds. */
  lemma ParseLosesNothing(v: Values, ks: seq<string>)
    requires Given(v) && Elements(ks) == v.Keys && Keys(v, ks)
    ensures Fold(NO_PARAMS, ks, v).Ok? <==> forall k :: k in v ==> Acceptable(k, v[k][|v[k]| - 1])
    ensures Fold(NO_PARAMS, ks, v).Ok? ==>
      var p, fs := Fold(NO_PARAMS, ks, v).value, FilterKeys(ks);
      && Sane(p)
      && Aligned(v, fs, p.search)
  {
    FoldExact(NO_PARAMS, ks, v);
    AcceptableEach(v, ks);
    if AllAcceptable(ks, v) {
      AllAddedSane(NO_PARAMS, ks, v);
      SearchExact(NO_PARAMS, ks, v);
      assert [] + Searched(v, ks) == Searched(v, ks);
      SearchedKeys(v, ks);
    }
  }

  predicate PageKey(k: string, name: string) { Keyed(k, true) && KeyOf(k).value.name == name }

  /** The i-th key is the last that sets it. */
  predicate LastPage(ks: seq<string>, name: string, i: int) {
    0 <= i < |ks| && PageKey(ks[i], name) && forall j :: i < j < |ks| ==> !PageKey(ks[j], name)
  }

  /** limit or offset. */
  function Number(p: Params, name: string): int { if name == "limit" then p.limit else p.offset }

  lemma AddedPage(p: Params, k: string, val: string, name: string)
    requires name == "limit" || name == "offset"
    ensures Number(Added(p, k, val), name) == if PageKey(k, name) && Atoi(val).Some? then Atoi(val).value else Number(p, name)
  {
  }

  lemma {:induction false} NoPageKey(p: Params, ks: seq<string>, v: Values, name: string)
    requires Given(v) && Keys(v, ks) && (name == "limit" || name == "offset")
    requires forall i :: 0 <= i < |ks| ==> !PageKey(ks[i], name)
    ensures Number(AllAdded(p, ks, v), name) == Number(p, name)
    decreases |ks|
  {
    if ks != [] {
      AddedPage(p, ks[0], Last(v, ks[0]), name);
      NoPageKey(Added(p, ks[0], Last(v, ks[0])), ks[1..], v, name);
    }
  }

  lemma {:induction false} LastPageKey(p: Params, ks: seq<string>, v: Values, name: string, i: nat, n: int)
    requires Given(v) && Keys(v, ks) && (name == "limit" || name == "offset")
    requires LastPage(ks, name, i) && Atoi(Last(v, ks[i])) == Some(n)
    ensures Number(AllAdded(p, ks, v), name) == n
    decreases |ks|
  {
    var q, rest := Added(p, ks[0], Last(v, ks[0])), ks[1..];
    assert forall j :: 0 <= j < |rest| ==> rest[j] == ks[j + 1];
    if i == 0 {
      AddedPage(p, ks[0], Last(v, ks[0]), name);
      NoPageKey(q, rest, v, name);
    } else {
      LastPageKey(q, rest, v, name, i - 1, n);
    }
  }

  /** The lists of fields= and sort=, which come once. */
  function ListOf(v: Values, ks: seq<string>, k: string): seq<string>
    requires Given(v) && Keys(v, ks)
  {
    if k in ks then Split(Last(v, k), ',') else []
  }

  lemma ListFirst(v: Values, ks: seq<string>, k: string)
    requires Given(v) && Keys(v, ks) && ks != [] && Distinct(ks)
    ensures ListOf(v, ks, k) == if ks[0] == k then Split(Last(v, k), ',') else ListOf(v, ks[1..], k)
    ensures ks[0] == k ==> ListOf(v, ks[1..], k) == []
  {
    assert ks == [ks[0]] + ks[1..];
    assert ks[0] !in ks[1..];
  }

  lemma {:induction false} FieldsExact(p: Params, ks: seq<string>, v: Values)
    requires Given(v) && Keys(v, ks) && Distinct(ks)
    ensures AllAdded(p, ks, v).fields == p.fields + ListOf(v, ks, "fields")
    decreases |ks|
  {
    if ks != [] {
      var q := Added(p, ks[0], Last(v, ks[0]));
      ListFirst(v, ks, "fields");
      FieldsExact(q, ks[1..], v);
      assert ks[0] == "fields" ==> q.fields + [] == q.fields;
      assert ks[0] != "fields" ==> p.fields + [] == p.fields;
    } else {
      assert p.fields + [] == p.fields;
    }
  }

  lemma {:induction false} OrderExact(p: Params, ks: seq<string>, v: Values)
    requires Given(v) && Keys(v, ks) && Distinct(ks)
    ensures AllAdded(p, ks, v).orderBy == p.orderBy + Descriptions(ListOf(v, ks, "sort"))
    decreases |ks|
  {
    assert Descriptions([]) == [];
    if ks != [] {
      var q := Added(p, ks[0], Last(v, ks[0]));
      ListFirst(v, ks, "sort");
      OrderExact(q, ks[1..], v);
      assert ks[0] == "sort" ==> q.orderBy + [] == q.orderBy;
      assert ks[0] != "sort" ==> p.orderBy + [] == p.orderBy;
    } else {
      assert p.orderBy + [] == p.orderBy;
    }
  }

  /** What of a page key Parse takes. */
  lemma PageAccepted(v: Values, k: string, name: string)
    requires Given(v) && k in v && PageKey(k, name) && Acceptable(k, Last(v, k))
    ensures Atoi(Last(v, k)).Some?
  {
    KeyPrefix(k);
  }

  lemma ListsSelected(v: Values, ks: seq<string>)
    requires Given(v) && Distinct(ks) && Elements(ks) == v.Keys && Keys(v, ks)
    ensures
      var p := AllAdded(NO_PARAMS, ks, v);
      && p.fields == (if "fields" in v then Split(v["fields"][|v["fields"]| - 1], ',') else [])
      && p.orderBy == (if "sort" in v then Descriptions(Split(v["sort"][|v["sort"]| - 1], ',')) else [])
  {
    FieldsExact(NO_PARAMS, ks, v);
    OrderExact(NO_PARAMS, ks, v);
    assert forall k :: k in ks <==> k in Elements(ks);
    assert [] + ListOf(v, ks, "fields") == ListOf(v, ks, "fields");
    assert [] + Descriptions(ListOf(v, ks, "sort")) == Descriptions(ListOf(v, ks, "sort"));
  }

  lemma PageSelected(v: Values, ks: seq<string>, name: string)
    requires Given(v) && Keys(v, ks) && AllAcceptable(ks, v) && (name == "limit" || name == "offset")
    ensures
      var n := Number(AllAdded(NO_PARAMS, ks, v), name);
      && ((forall i :: 0 <= i < |ks| ==> !PageKey(ks[i], name)) ==> n == if name == "limit" then 500 else 0)
      && (forall i :: LastPage(ks, name, i) ==> Some(n) == Atoi(v[ks[i]][|v[ks[i]]| - 1]))
  {
    if forall i :: 0 <= i < |ks| ==> !PageKey(ks[i], name) {
      NoPageKey(NO_PARAMS, ks, v, name);
    }
    forall i | LastPage(ks, name, i)
      ensures Some(Number(AllAdded(NO_PARAMS, ks, v), name)) == Atoi(v[ks[i]][|v[ks[i]]| - 1])
    {
      PageAccepted(v, ks[i], name);
      LastPageKey(NO_PARAMS, ks, v, name, i, Atoi(Last(v, ks[i])).value);
    }
  }

  /** On success fields and order are those of the last fields= and sort=, in their order; limit and offset
      are the last page keys' in key order, 500 and 0 where there is none. */
  lemma ParseSelects(v: Values, ks: seq<string>)
    requires Given(v) && Distinct(ks) && Elements(ks) == v.Keys && Keys(v, ks) && Fold(NO_PARAMS, ks, v).Ok?
    ensures
      var p := Fold(NO_PARAMS, ks, v).value;
      && p.fields == (if "fields" in v then Split(v["fields"][|v["fields"]| - 1], ',') else [])
      && p.orderBy == (if "sort" in v then Descriptions(Split(v["sort"][|v["sort"]| - 1], ',')) else [])
    ensures
      var p := Fold(NO_PARAMS, ks, v).value;
      && ((forall i :: 0 <= i < |ks| ==> !PageKey(ks[i], "limit")) ==> p.limit == 500)
      && ((forall i :: 0 <= i < |ks| ==> !PageKey(ks[i], "offset")) ==> p.offset == 0)
      && (forall i :: LastPage(ks, "limit", i) ==> Some(p.limit) == Atoi(v[ks[i]][|v[ks[i]]| - 1]))
      && (forall i :: LastPage(ks, "offset", i) ==> Some(p.offset) == Atoi(v[ks[i]][|v[ks[i]]| - 1]))
  {
    FoldExact(NO_PARAMS, ks, v);
    ListsSelected(v, ks);
    PageSelected(v, ks, "limit");
    PageSelected(v, ks, "offset");
  }

  /** An int of 64 bits. */
  function Int64(n: int): Option<int> { if -0x8000_0000_0000_0000 <= n < 0x8000_0000_0000_0000 then Some(n) else None }

  predicate Digits(s: string) { s != "" && forall i :: 0 <= i < |s| ==> IsDigit(s[i]) }

  lemma AtoiUnsigned(s: string)
    requires Digits(s)
    ensures Atoi(s) == Int64(Value(s))
  {
    assert IsDigit(s[0]);
  }

  lemma AtoiSigned(sign: char, s: string)
    requires Digits(s) && (sign == '-' || sign == '+')
    ensures Atoi([sign] + s) == Int64(if sign == '-' then -(Value(s) as int) else Value(s))
  {
    assert ([sign] + s)[1..] == s;
  }

  /** A number is read as it is written, with its sign, when it is one of 64 bits. */
  lemma AtoiReads(n: nat)
    ensures Atoi(Decimal(n)) == Int64(n)
    ensures Atoi(['+'] + Decimal(n)) == Int64(n)
    ensures Atoi(['-'] + Decimal(n)) == Int64(-(n as int))
  {
    DecimalValue(n);
    AtoiUnsigned(Decimal(n));
    AtoiSigned('+', Decimal(n));
    AtoiSigned('-', Decimal(n));
  }

  /** The second bracket of a page key is not looked at: page[limit][x] is page[limit]. */
  lemma SecondPageBracketIgnored(p: Params, name: string, op: string, val: string)
    requires WellMade(Key(true, name, op))
    ensures Step(p, NameOf(Key(true, name, op)), val) == Step(p, NameOf(Key(true, name, "")), val) == Paged(p, name, val)
  {
    var a, b := Key(true, name, op), Key(true, name, "");
    KeyRoundTrip(a);
    KeyRoundTrip(b);
    KeyPrefix(NameOf(a));
    KeyPrefix(NameOf(b));
  }

  /** The translation does not depend on the order the map is walked in. */
  lemma OrderFree(v: Values, a: seq<string>, b: seq<string>)
    requires Distinct(a) && Distinct(b) && Elements(a) == Elements(b) == v.Keys
    ensures Sort(a) == Sort(b)
  {
    SortSorted(a);
    SortSorted(b);
    SortedUnique(Sort(a), Sort(b));
  }

  // ------------------------------------------------------- lists as the client writes them

  /** One field of sort=, with its direction. */
  datatype Ordering = Ordering(field: string, desc: bool)

  function Spelled(o: Ordering): string { (if o.desc then "-" else "") + o.field }

  function SpelledAll(os: seq<Ordering>): seq<string> {
    if os == [] then [] else [Spelled(os[0])] + SpelledAll(os[1..])
  }

  function Clause(o: Ordering): string { o.field + if o.desc then " DESC" else " ASC" }

  function Clauses(os: seq<Ordering>): seq<string> { if os == [] then [] else [Clause(os[0])] + Clauses(os[1..]) }

  predicate Listable(parts: seq<string>) { parts != [] && forall i :: 0 <= i < |parts| ==> Lacks(parts[i], ',') }

  /** What a field of a list may hold to be read as one: no comma, and no dash before it but that of a
      descending order. */
  predicate Spellable(o: Ordering) { Lacks(o.field, ',') && ("-" <= o.field ==> o.desc) }

  predicate AllNamed(os: seq<Ordering>) { forall i :: 0 <= i < |os| ==> IsIdent(os[i].field) }

  /** fields=a,b selects the fields written, in their order, and is refused when one is no identifier. */
  lemma FieldsAsWritten(p: Params, names: seq<string>)
    requires Listable(names)
    ensures Step(p, "fields", Join(names, ",")) == if AllIdents(names) then Ok(p.(fields := p.fields + names)) else Err
  {
    JoinSplits(names, ',');
  }

  lemma OrderingRead(o: Ordering)
    requires Spellable(o)
    ensures OrderTerm(Spelled(o)) == (if IsIdent(o.field) then Ok(Clause(o)) else Err) && Lacks(Spelled(o), ',')
  {
    if o.desc {
      assert Spelled(o)[1..] == o.field;
    } else {
      assert Spelled(o) == o.field;
    }
  }

  lemma {:induction false} OrderingsRead(os: seq<Ordering>)
    requires forall i :: 0 <= i < |os| ==> Spellable(os[i])
    ensures OrderTerms(SpelledAll(os)) == (if AllNamed(os) then Ok(Clauses(os)) else Err) && |SpelledAll(os)| == |os|
    ensures forall i :: 0 <= i < |os| ==> Lacks(SpelledAll(os)[i], ',')
  {
    if os != [] {
      OrderingsRead(os[1..]);
      OrderingRead(os[0]);
      var rest := SpelledAll(os[1..]);
      assert ([Spelled(os[0])] + rest)[1..] == rest;
      assert AllNamed(os) <==> IsIdent(os[0].field) && AllNamed(os[1..]);
    }
  }

  /** sort=a,-b orders by the fields written, each in its direction, in their order, and is refused when
      one is no identifier. */
  lemma SortAsWritten(p: Params, os: seq<Ordering>)
    requires os != [] && forall i :: 0 <= i < |os| ==> Spellable(os[i])
    ensures Step(p, "sort", Join(SpelledAll(os), ",")) == if AllNamed(os) then Ok(p.(orderBy := p.orderBy + Clauses(os))) else Err
  {
    OrderingsRead(os);
    JoinSplits(SpelledAll(os), ',');
  }

  /** filter[x][in]=a,b asks for one of the values written. */
  lemma ListAsWritten(name: string, values: seq<string>, cell: Option<string>, o: Collation)
    requires IsIdent(name) && Listable(values)
    ensures Tested(Filtered(Key(false, name, "in"), Join(values, ",")), cell, o) <==> cell.Some? && cell.value in values
  {
    JoinSplits(values, ',');
    FilterMeans(Key(false, name, "in"), Join(values, ","), cell, o);
  }

  // -------------------------------------------------------------------- what it means

  /** The comparison of values of a field, as the database orders them, and its case folding. */
  datatype Collation = Collation(less: (string, string) -> bool, fold: char -> char)

  /** What a filter asks of a field's value (None: NULL), in the terms of the request. */
  predicate Wanted(op: string, val: string, cell: Option<string>, o: Collation) {
    match op
    case "null" => if val == "true" then cell.None? else cell.Some?
    case "in" => cell.Some? && cell.value in Split(val, ',')
    case "ne" => cell.Some? && cell.value != val
    case "lt" => cell.Some? && o.less(cell.value, val)
    case "lte" => cell.Some? && (o.less(cell.value, val) || cell.value == val)
    case "gt" => cell.Some? && o.less(val, cell.value)
    case "gte" => cell.Some? && (o.less(val, cell.value) || cell.value == val)
    case "like" => cell.Some? && Like(val, cell.value)
    case "ilike" => cell.Some? && ILike(o.fold, val, cell.value)
    case _ => cell.Some? && cell.value == val
  }

  /** What a condition asks, in the terms of api.sql(): a code of its own for each comparison, none for
      membership; NULL meets ISN alone; a value left out is the empty text. */
  predicate Tested(c: Condition, cell: Option<string>, o: Collation) {
    match c.compare
    case "ISN" => cell.None?
    case "INN" => cell.Some?
    case "" => cell.Some? && cell.value in c.valarr
    case "EQL" => cell == Some(c.value)
    case "NEQ" => cell.Some? && cell.value != c.value
    case "LSS" => cell.Some? && o.less(cell.value, c.value)
    case "LEQ" => cell.Some? && (o.less(cell.value, c.value) || cell.value == c.value)
    case "GTR" => cell.Some? && o.less(c.value, cell.value)
    case "GEQ" => cell.Some? && (o.less(c.value, cell.value) || cell.value == c.value)
    case "LKE" => cell.Some? && Like(c.value, cell.value)
    case "IKE" => cell.Some? && ILike(o.fold, c.value, cell.value)
    case _ => false
  }

  /** A filter key's condition tests its own field for what the request wants of it. */
  lemma FilterMeans(key: Key, val: string, cell: Option<string>, o: Collation)
    requires IsIdent(key.name) && KnownOperator(key.op)
    ensures Filtered(key, val).field == key.name
    ensures Tested(Filtered(key, val), cell, o) <==> Wanted(key.op, val, cell, o)
  {
    ConditionExact(key, val);
  }

  function Cell(row: Row, field: string): Option<string> { if field in row then Some(row[field]) else None }

  /** How the database decides a condition on a row. */
  function TestOn(row: Row, o: Collation): Condition -> bool { (c: Condition) => Tested(c, Cell(row, c.field), o) }

  /** The row has what the filter key asks for. */
  predicate Satisfied(v: Values, k: string, row: Row, o: Collation)
    requires Given(v) && k in v && Keyed(k, false)
  {
    Wanted(KeyOf(k).value.op, v[k][|v[k]| - 1], Cell(row, KeyOf(k).value.name), o)
  }

  /** The row is one the request asks for: every filter key of the URL, and the term in some field. */
  ghost predicate Selected(v: Values, term: string, fields: seq<string>, row: Row, o: Collation)
    requires Given(v)
  {
    && (forall k :: k in v && Keyed(k, false) ==> Satisfied(v, k, row, o))
    && (term != "" ==> exists i :: 0 <= i < |fields| && fields[i] in row && Contains(Search.Fold(o.fold, row[fields[i]]), Search.Fold(o.fold, term)))
  }

  lemma FilterSatisfied(v: Values, k: string, row: Row, o: Collation)
    requires Given(v) && k in v && Keyed(k, false) && Acceptable(k, Last(v, k))
    ensures Tested(FilterOf(v, k), Cell(row, FilterOf(v, k).field), o) <==> Satisfied(v, k, row, o)
  {
    AcceptedFilter(k, Last(v, k));
    FilterMeans(KeyOf(k).value, Last(v, k), Cell(row, KeyOf(k).value.name), o);
  }

  lemma FiltersSatisfied(v: Values, ks: seq<string>, row: Row, o: Collation)
    requires Given(v) && Elements(ks) == v.Keys && Keys(v, ks) && Fold(NO_PARAMS, ks, v).Ok?
    ensures All(Fold(NO_PARAMS, ks, v).value.search, TestOn(row, o)) <==>
            forall k :: k in v && Keyed(k, false) ==> Satisfied(v, k, row, o)
  {
    ParseLosesNothing(v, ks);
    var search, fs, h := Fold(NO_PARAMS, ks, v).value.search, FilterKeys(ks), TestOn(row, o);
    forall i | 0 <= i < |fs| ensures fs[i] in v && Keyed(fs[i], false) && (h(search[i]) <==> Satisfied(v, fs[i], row, o)) {
      FilterSatisfied(v, fs[i], row, o);
    }
    if All(search, h) {
      forall k | k in v && Keyed(k, false) ensures Satisfied(v, k, row, o) {
        assert k in Elements(ks);
        var i :| 0 <= i < |fs| && fs[i] == k;
        assert h(search[i]);
      }
    }
  }

  lemma FieldsMatch(term: string, fields: seq<string>, row: Row, o: Collation)
    requires KeepsSpecials(o.fold)
    ensures AnyField(fields, Pattern(term), TestOn(row, o)) <==>
      exists i :: 0 <= i < |fields| && fields[i] in row && Contains(Search.Fold(o.fold, row[fields[i]]), Search.Fold(o.fold, term))
  {
    var h := TestOn(row, o);
    forall i | 0 <= i < |fields|
      ensures h(Condition(fields[i], "IKE", Pattern(term), [])) <==>
              fields[i] in row && Contains(Search.Fold(o.fold, row[fields[i]]), Search.Fold(o.fold, term))
    {
      if fields[i] in row {
        PatternMatchesFolded(o.fold, term, row[fields[i]]);
      }
    }
  }

  /** From the URL to the rows: what Parse makes of the parameters and SearchOf of its result, read by
      the database with SQL precedence, selects exactly the rows the request asks for. */
  lemma RequestSelects(v: Values, ks: seq<string>, q: string, fields: seq<string>, row: Row, o: Collation)
    requires Given(v) && Elements(ks) == v.Keys && Keys(v, ks) && Fold(NO_PARAMS, ks, v).Ok? && KeepsSpecials(o.fold)
    requires Fold(NO_PARAMS, ks, v).value.search != [] || (fields != [] && Trim(q) != "")
    ensures
      var term := if fields == [] then "" else Trim(q);
      Reads(ArrayOf(Fold(NO_PARAMS, ks, v).value.search, term, fields), TestOn(row, o)) == Some(Selected(v, term, fields, row, o))
  {
    var search, term, h := Fold(NO_PARAMS, ks, v).value.search, TermOf(q, fields), TestOn(row, o);
    ArrayMeans(search, term, fields, h);
    FiltersSatisfied(v, ks, row, o);
    FieldsMatch(term, fields, row, o);
  }
}
