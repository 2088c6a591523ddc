/**
 Which parameters a connection string names (lib/pgtx/pgtx.go, dsnKeys). The scanner works by index
 and may step up to two characters past the end; the specification works on what is left to read.
 */
module DsnKeys {
  import opened Options

  // ------------------------------------------------------------- what is left to read

  function SkipBlanks(s: string): (r: string)
    ensures |r| <= |s|
    ensures r != [] ==> r[0] != ' '
  {
    if s != [] && s[0] == ' ' then SkipBlanks(s[1..]) else s
  }

  predicate EndsKey(c: char) { c == '=' || c == ' ' }

  function Key(s: string): string {
    if s == [] || EndsKey(s[0]) then [] else [s[0]] + Key(s[1..])
  }

  function AfterKey(s: string): (r: string)
    ensures |r| <= |s|
    ensures r == [] || EndsKey(r[0])
    ensures s != [] && s[0] != '=' && s[0] != ' ' ==> |r| < |s|
  {
    if s == [] || EndsKey(s[0]) then s else AfterKey(s[1..])
  }

  /** Past an escaped or a plain character. */
  function PastOne(s: string): (r: string)
    requires s != []
    ensures |r| < |s|
  {
    if s[0] != '\\' then s[1..] else if |s| == 1 then [] else s[2..]
  }

  /** Past a quoted value, its opening quote already read. */
  function AfterQuoted(s: string): (r: string)
    ensures |r| <= |s|
    decreases |s|
  {
    if s == [] then [] else if s[0] == '\'' then s[1..] else AfterQuoted(PastOne(s))
  }

  function AfterPlain(s: string): (r: string)
    ensures |r| <= |s|
    decreases |s|
  {
    if s == [] || s[0] == ' ' then s else AfterPlain(PastOne(s))
  }

  function AfterValue(s: string): (r: string)
    ensures |r| <= |s|
  {
    if s != [] && s[0] == '\'' then AfterQuoted(s[1..]) else AfterPlain(s)
  }

  function Named(key: string): set<string> { if key == "" then {} else {key} }

  /** The parameters set by what is left to read. */
  function Keys(s: string): set<string>
    decreases |s|
  {
    if s == [] then {}
    else
      var token := SkipBlanks(s);
      var rest := SkipBlanks(AfterKey(token));
      if rest == [] then {}
      else if rest[0] != '=' then Keys(rest)
      else Keys(AfterValue(SkipBlanks(rest[1..]))) + Named(Key(token))
  }

  // ------------------------------------------------------------------- the scanner

  /** What is left from an index, which may be past the end. */
  function From(dsn: string, i: nat): string { if i < |dsn| then dsn[i..] else [] }

  lemma FromStep(dsn: string, i: nat)
    requires i < |dsn|
    ensures From(dsn, i) != [] && From(dsn, i)[0] == dsn[i] && From(dsn, i)[1..] == From(dsn, i + 1)
  {
  }

  lemma FromPastOne(dsn: string, i: nat)
    requires i < |dsn|
    ensures From(dsn, i) != [] && From(dsn, i)[0] == dsn[i]
    ensures PastOne(From(dsn, i)) == From(dsn, if dsn[i] == '\\' then i + 2 else i + 1)
  {
  }

  method PastBlanks(dsn: string, start: nat) returns (i: nat)
    requires start <= |dsn|
    ensures start <= i <= |dsn| && (i < |dsn| ==> dsn[i] != ' ')
    ensures From(dsn, i) == SkipBlanks(From(dsn, start))
  {
    i := start;
    while i < |dsn| && dsn[i] == ' '
      invariant start <= i <= |dsn|
      invariant SkipBlanks(From(dsn, i)) == SkipBlanks(From(dsn, start))
    {
      FromStep(dsn, i);
      i := i + 1;
    }
  }

  /** The index at which a key ends. */
  function KeyEnd(dsn: string, i: nat): (end: nat)
    requires i <= |dsn|
    ensures i <= end <= |dsn| && (end < |dsn| ==> EndsKey(dsn[end]))
    decreases |dsn| - i
  {
    if i == |dsn| || EndsKey(dsn[i]) then i else KeyEnd(dsn, i + 1)
  }

  lemma {:induction false} KeyEndLeaves(dsn: string, i: nat)
    requires i <= |dsn|
    ensures From(dsn, KeyEnd(dsn, i)) == AfterKey(From(dsn, i)) && dsn[i..KeyEnd(dsn, i)] == Key(From(dsn, i))
    decreases |dsn| - i
  {
    if i < |dsn| && !EndsKey(dsn[i]) {
      FromStep(dsn, i);
      KeyEndLeaves(dsn, i + 1);
      var end := KeyEnd(dsn, i + 1);
      assert dsn[i..end] == [dsn[i]] + dsn[i + 1..end];
    }
  }

  method PastKey(dsn: string, start: nat) returns (i: nat)
    requires start <= |dsn|
    ensures start <= i <= |dsn| && (i < |dsn| ==> EndsKey(dsn[i]))
    ensures From(dsn, i) == AfterKey(From(dsn, start)) && dsn[start..i] == Key(From(dsn, start))
  {
    i := start;
    while i < |dsn| && dsn[i] != '=' && dsn[i] != ' '
      invariant start <= i <= |dsn|
      invariant KeyEnd(dsn, i) == KeyEnd(dsn, start)
    {
      i := i + 1;
    }
    KeyEndLeaves(dsn, start);
  }

  /** The index of the closing quote, or past the end. */
  function QuotedEnd(dsn: string, i: nat): nat
    decreases |dsn| - i
  {
    if i >= |dsn| || dsn[i] == '\'' then i else QuotedEnd(dsn, if dsn[i] == '\\' then i + 2 else i + 1)
  }

  lemma QuotedStep(dsn: string, i: nat)
    requires i < |dsn| && dsn[i] != '\''
    ensures AfterQuoted(From(dsn, i)) == AfterQuoted(From(dsn, if dsn[i] == '\\' then i + 2 else i + 1))
  {
    FromPastOne(dsn, i);
  }

  lemma QuotedStops(dsn: string, i: nat)
    requires i < |dsn| ==> dsn[i] == '\''
    ensures AfterQuoted(From(dsn, i)) == From(dsn, i + 1)
  {
    if i < |dsn| {
      FromStep(dsn, i);
    }
  }

  lemma {:induction false} QuotedEndReached(dsn: string, i: nat)
    ensures AfterQuoted(From(dsn, QuotedEnd(dsn, i))) == AfterQuoted(From(dsn, i))
    ensures QuotedEnd(dsn, i) < |dsn| ==> dsn[QuotedEnd(dsn, i)] == '\''
    decreases |dsn| - i
  {
    if i < |dsn| && dsn[i] != '\'' {
      QuotedStep(dsn, i);
      QuotedEndReached(dsn, if dsn[i] == '\\' then i + 2 else i + 1);
    }
  }

  lemma QuotedEndLeaves(dsn: string, i: nat)
    ensures From(dsn, QuotedEnd(dsn, i) + 1) == AfterQuoted(From(dsn, i))
  {
    QuotedEndReached(dsn, i);
    QuotedStops(dsn, QuotedEnd(dsn, i));
  }

  /** Past the closing quote, or past the end: by one when it is missing, by two when an escape is the
      last character. */
  method PastQuoted(dsn: string, start: nat) returns (i: nat)
    requires start < |dsn|
    ensures start < i <= |dsn| + 2
    ensures From(dsn, i) == AfterQuoted(From(dsn, start + 1))
  {
    i := start + 1;
    while i < |dsn| && dsn[i] != '\''
      invariant start < i <= |dsn| + 1
      invariant QuotedEnd(dsn, i) == QuotedEnd(dsn, start + 1)
    {
      if dsn[i] == '\\' {
        i := i + 1;
      }
      i := i + 1;
    }
    QuotedEndLeaves(dsn, start + 1);
    i := i + 1;
  }

  /** The index at which a plain value ends. */
  function PlainEnd(dsn: string, i: nat): nat
    decreases |dsn| - i
  {
    if i >= |dsn| || dsn[i] == ' ' then i else PlainEnd(dsn, if dsn[i] == '\\' then i + 2 else i + 1)
  }

  lemma {:induction false} PlainEndLeaves(dsn: string, i: nat)
    ensures From(dsn, PlainEnd(dsn, i)) == AfterPlain(From(dsn, i))
    decreases |dsn| - i
  {
    if i < |dsn| && dsn[i] != ' ' {
      FromPastOne(dsn, i);
      PlainEndLeaves(dsn, if dsn[i] == '\\' then i + 2 else i + 1);
    }
  }

  method PastPlain(dsn: string, start: nat) returns (i: nat)
    requires start <= |dsn|
    ensures start <= i <= |dsn| + 1
    ensures From(dsn, i) == AfterPlain(From(dsn, start))
  {
    i := start;
    while i < |dsn| && dsn[i] != ' '
      invariant start <= i <= |dsn| + 1
      invariant PlainEnd(dsn, i) == PlainEnd(dsn, start)
    {
      if dsn[i] == '\\' {
        i := i + 1;
      }
      i := i + 1;
    }
    PlainEndLeaves(dsn, start);
  }

  method PastValue(dsn: string, start: nat) returns (i: nat)
    requires start <= |dsn|
    ensures start <= i <= |dsn| + 2
    ensures From(dsn, i) == AfterValue(From(dsn, start))
  {
    if start < |dsn| && dsn[start] == '\'' {
      FromStep(dsn, start);
      i := PastQuoted(dsn, start);
    } else {
      i := PastPlain(dsn, start);
    }
  }

  lemma KeysWord(s: string, token: string, rest: string)
    requires token == SkipBlanks(s) && rest == SkipBlanks(AfterKey(token))
    requires rest == [] || rest[0] != '='
    ensures Keys(s) == Keys(rest)
  {
    if s == [] {
      assert SkipBlanks(s) == [] && AfterKey([]) == [];
    }
  }

  lemma KeysPair(s: string, token: string, rest: string, value: string)
    requires token == SkipBlanks(s) && rest == SkipBlanks(AfterKey(token))
    requires rest != [] && rest[0] == '=' && value == SkipBlanks(rest[1..])
    ensures Keys(s) == Keys(AfterValue(value)) + Named(Key(token))
  {
  }

  /** One turn of the scanning loop; no key when it met a word with no value. */
  method NextKey(dsn: string, from: nat) returns (key: string, i: nat)
    requires from < |dsn|
    ensures i > from
    ensures Keys(From(dsn, from)) == Keys(From(dsn, i)) + Named(key)
  {
    var start := PastBlanks(dsn, from);
    i := PastKey(dsn, start);
    key := dsn[start..i];
    i := PastBlanks(dsn, i);
    ghost var rest := From(dsn, i);
    if i >= |dsn| || dsn[i] != '=' {
      KeysWord(From(dsn, from), From(dsn, start), rest);
      key := "";
    } else {
      i := PastEquals(dsn, i);
      KeysPair(From(dsn, from), From(dsn, start), rest, From(dsn, i));
      i := PastValue(dsn, i);
    }
  }

  /** Past the equals sign and the blanks after it. */
  method PastEquals(dsn: string, at: nat) returns (i: nat)
    requires at < |dsn| && dsn[at] == '='
    ensures at < i <= |dsn|
    ensures From(dsn, at) != [] && From(dsn, at)[0] == '=' && From(dsn, i) == SkipBlanks(From(dsn, at)[1..])
  {
    FromStep(dsn, at);
    i := PastBlanks(dsn, at + 1);
  }

  /** dsnKeys on the keyword form: every string is scanned to its end, no index out of range. */
  method KeywordKeys(dsn: string) returns (keys: set<string>)
    ensures keys == Keys(dsn)
  {
    keys := {};
    var i := 0;
    assert From(dsn, 0) == dsn;
    while i < |dsn|
      invariant keys + Keys(From(dsn, i)) == Keys(dsn)
      decreases |dsn| - i
    {
      var key, next := NextKey(dsn, i);
      if key != "" {
        keys := keys + {key};
      }
      i := next;
    }
  }

  predicate IsUrl(dsn: string) { "postgres://" <= dsn || "postgresql://" <= dsn }

  /** dsnKeys; `query` holds the names in the URL's query, none when it is not a URL. */
  method DsnKeys(dsn: string, query: Option<set<string>>) returns (keys: set<string>)
    ensures keys == if "postgres://" <= dsn || "postgresql://" <= dsn then (if query.Some? then query.value else {}) else Keys(dsn)
  {
    if IsUrl(dsn) {
      return if query.Some? then query.value else {};
    }
    keys := KeywordKeys(dsn);
  }

  // ------------------------------------------------- writing a keyword string (libpq)

  /** A character of a value, with a backslash before it or without. */
  datatype Char = Char(c: char, escaped: bool)
  datatype Value = Quoted(chars: seq<Char>) | Plain(chars: seq<Char>)

  /** `key = value` with any blanks around, or a word with no value. */
  datatype Item = Pair(before: nat, key: string, left: nat, right: nat, value: Value) | Word(before: nat, word: string)

  function Blanks(n: nat): string { if n == 0 then [] else [' '] + Blanks(n - 1) }

  function Chars(cs: seq<Char>): string {
    if cs == [] then [] else (if cs[0].escaped then ['\\', cs[0].c] else [cs[0].c]) + Chars(cs[1..])
  }

  function Write(items: seq<Item>, tail: nat): string {
    if items == [] then Blanks(tail) else WriteItem(items[0], Write(items[1..], tail))
  }

  function WriteItem(item: Item, rest: string): string {
    match item
    case Word(before, word) => Blanks(before) + (word + rest)
    case Pair(before, key, left, right, value) =>
      Blanks(before) + (key + (Blanks(left) + (['='] + (Blanks(right) + WriteValue(value, rest)))))
  }

  function WriteValue(value: Value, rest: string): string {
    match value
    case Quoted(cs) => ['\''] + (Chars(cs) + (['\''] + rest))
    case Plain(cs) => Chars(cs) + rest
  }

  predicate IsWord(k: string) { k != "" && forall i :: 0 <= i < |k| ==> !EndsKey(k[i]) }

  /** Within quotes a quote and a backslash are escaped; outside, a blank and a backslash, and a plain
      value is not empty nor begins with a quote. */
  predicate Escaped(cs: seq<Char>, end: char) {
    forall i :: 0 <= i < |cs| && (cs[i].c == end || cs[i].c == '\\') ==> cs[i].escaped
  }

  predicate LegalValue(v: Value) {
    match v
    case Quoted(cs) => Escaped(cs, '\'')
    case Plain(cs) => cs != [] && Escaped(cs, ' ') && (cs[0].c == '\'' ==> cs[0].escaped)
  }

  /** A blank must follow it before the next item. */
  predicate NeedsBlank(item: Item) { item.Word? || item.value.Plain? }

  predicate LegalItem(item: Item) {
    match item
    case Word(_, word) => IsWord(word)
    case Pair(_, key, _, _, value) => IsWord(key) && LegalValue(value)
  }

  predicate Legal(items: seq<Item>) {
    && (forall i :: 0 <= i < |items| ==> LegalItem(items[i]))
    && (forall i :: 0 < i < |items| && NeedsBlank(items[i - 1]) ==> items[i].before > 0)
  }

  function PairKeys(items: seq<Item>): set<string> {
    if items == [] then {} else (if items[0].Pair? then {items[0].key} else {}) + PairKeys(items[1..])
  }

  // --------------------------------------------------------------- the round trip

  lemma {:induction false} BlanksSkipped(n: nat, s: string)
    ensures SkipBlanks(Blanks(n) + s) == SkipBlanks(s)
  {
    if n > 0 {
      assert (Blanks(n) + s)[1..] == Blanks(n - 1) + s;
      BlanksSkipped(n - 1, s);
    } else {
      assert Blanks(n) + s == s;
    }
  }

  lemma {:induction false} SkippedTwice(s: string)
    ensures Keys(SkipBlanks(s)) == Keys(s)
  {
    assert SkipBlanks(SkipBlanks(s)) == SkipBlanks(s);
    if s != [] && SkipBlanks(s) == [] {
      assert AfterKey([]) == [] && SkipBlanks([]) == [];
    }
  }

  lemma {:induction false} WordTaken(w: string, s: string)
    requires forall i :: 0 <= i < |w| ==> !EndsKey(w[i])
    requires s == [] || EndsKey(s[0])
    ensures Key(w + s) == w && AfterKey(w + s) == s
  {
    if w == [] {
      assert w + s == s;
    } else {
      assert (w + s)[1..] == w[1..] + s;
      WordTaken(w[1..], s);
      assert [w[0]] + w[1..] == w;
    }
  }

  lemma PastFirst(cs: seq<Char>, s: string)
    requires cs != [] && (cs[0].c == '\\' ==> cs[0].escaped)
    ensures Chars(cs) + s != [] && PastOne(Chars(cs) + s) == Chars(cs[1..]) + s
    ensures (Chars(cs) + s)[0] == if cs[0].escaped then '\\' else cs[0].c
  {
    var rest := Chars(cs[1..]);
    var first := if cs[0].escaped then ['\\', cs[0].c] else [cs[0].c];
    assert Chars(cs) == first + rest;
    assert Chars(cs) + s == first + (rest + s);
    assert (first + (rest + s))[|first|..] == rest + s;
  }

  lemma {:induction false} QuotedSkipped(cs: seq<Char>, s: string)
    requires Escaped(cs, '\'')
    ensures AfterQuoted(Chars(cs) + (['\''] + s)) == s
  {
    if cs == [] {
      assert Chars(cs) + (['\''] + s) == ['\''] + s;
    } else {
      PastFirst(cs, ['\''] + s);
      QuotedSkipped(cs[1..], s);
    }
  }

  lemma {:induction false} PlainSkipped(cs: seq<Char>, s: string)
    requires Escaped(cs, ' ')
    requires s == [] || s[0] == ' '
    ensures AfterPlain(Chars(cs) + s) == s
  {
    if cs == [] {
      assert Chars(cs) + s == s;
    } else {
      PastFirst(cs, s);
      PlainSkipped(cs[1..], s);
    }
  }

  lemma ValueSkipped(v: Value, s: string)
    requires LegalValue(v) && (v.Plain? ==> s == [] || s[0] == ' ')
    ensures WriteValue(v, s) != [] && WriteValue(v, s)[0] != ' ' && AfterValue(WriteValue(v, s)) == s
  {
    match v
    case Quoted(cs) =>
      assert WriteValue(v, s)[1..] == Chars(cs) + (['\''] + s);
      QuotedSkipped(cs, s);
    case Plain(cs) =>
      PastFirst(cs, s);
      PlainSkipped(cs, s);
  }

  lemma PairScanned(item: Item, rest: string)
    requires item.Pair? && LegalItem(item) && (item.value.Plain? ==> rest == [] || rest[0] == ' ')
    ensures Keys(WriteItem(item, rest)) == {item.key} + Keys(rest)
  {
    var value := WriteValue(item.value, rest);
    var right := Blanks(item.right) + value;
    var eq := ['='] + right;
    var left := Blanks(item.left) + eq;
    var token := item.key + left;
    var s := Blanks(item.before) + token;
    ValueSkipped(item.value, rest);
    BlanksSkipped(item.right, value);
    BlanksSkipped(item.left, eq);
    BlanksSkipped(item.before, token);
    assert SkipBlanks(eq) == eq && SkipBlanks(value) == value && eq[1..] == right;
    assert item.left > 0 ==> left[0] == ' ';
    WordTaken(item.key, left);
    assert !EndsKey(item.key[0]) && token[0] == item.key[0];
    assert SkipBlanks(s) == token && s != [];
  }

  lemma WordScanned(item: Item, rest: string)
    requires item.Word? && LegalItem(item)
    requires rest == [] || rest[0] == ' '
    requires SkipBlanks(rest) == [] || SkipBlanks(rest)[0] != '='
    ensures Keys(WriteItem(item, rest)) == Keys(rest)
  {
    var token := item.word + rest;
    BlanksSkipped(item.before, token);
    WordTaken(item.word, rest);
    assert !EndsKey(item.word[0]) && token[0] == item.word[0];
    assert SkipBlanks(Blanks(item.before) + token) == token;
    SkippedTwice(rest);
  }

  /** How a list of items begins: with its blanks, and after them not with an equals sign. */
  lemma WriteBegins(items: seq<Item>, tail: nat)
    requires forall i :: 0 <= i < |items| ==> LegalItem(items[i])
    ensures var s := SkipBlanks(Write(items, tail)); s == [] || s[0] != '='
    ensures var s := Write(items, tail); (items != [] ==> items[0].before > 0) ==> s == [] || s[0] == ' '
  {
    if items == [] {
      BlanksSkipped(tail, []);
      assert Blanks(tail) + [] == Blanks(tail);
    } else {
      ItemBegins(items[0], Write(items[1..], tail));
    }
  }

  lemma ItemBegins(item: Item, rest: string)
    requires LegalItem(item)
    ensures var s := SkipBlanks(WriteItem(item, rest)); s == [] || s[0] != '='
    ensures item.before > 0 ==> var s := WriteItem(item, rest); s != [] && s[0] == ' '
  {
    var word := if item.Word? then item.word else item.key;
    var after := if item.Word? then rest else Blanks(item.left) + (['='] + (Blanks(item.right) + WriteValue(item.value, rest)));
    assert WriteItem(item, rest) == Blanks(item.before) + (word + after);
    BlanksSkipped(item.before, word + after);
    assert !EndsKey(word[0]) && (word + after)[0] == word[0];
  }

  /** The scanner finds exactly the keys of the pairs, whatever blanks stand around the equals signs,
      however the values are quoted and whatever text they hold. */
  lemma {:induction false} WrittenKeysFound(items: seq<Item>, tail: nat)
    requires Legal(items)
    ensures Keys(Write(items, tail)) == PairKeys(items)
  {
    if items == [] {
      SkippedTwice(Blanks(tail));
      BlanksSkipped(tail, []);
      assert Blanks(tail) + [] == Blanks(tail);
    } else {
      var rest := Write(items[1..], tail);
      WrittenKeysFound(items[1..], tail);
      WriteBegins(items[1..], tail);
      assert |items| > 1 ==> items[1..][0] == items[1];
      if items[0].Pair? {
        PairScanned(items[0], rest);
      } else {
        WordScanned(items[0], rest);
      }
    }
  }

  lemma {:induction false} KeyIsWord(s: string)
    ensures Key(s) != "" ==> IsWord(Key(s))
  {
    if s != [] && !EndsKey(s[0]) {
      KeyIsWord(s[1..]);
    }
  }

  /** On every string, well written or not, what is found is a word: not empty, no blank, no equals sign. */
  lemma {:induction false} KeysAreWords(s: string)
    ensures forall k :: k in Keys(s) ==> IsWord(k)
    decreases |s|
  {
    if s != [] {
      var token := SkipBlanks(s);
      var rest := SkipBlanks(AfterKey(token));
      KeyIsWord(token);
      if rest != [] && rest[0] == '=' {
        KeysAreWords(AfterValue(SkipBlanks(rest[1..])));
      } else if rest != [] {
        KeysAreWords(rest);
      }
    }
  }

  /** The text a value holds, its escapes undone. */
  function TextOf(cs: seq<Char>): string { if cs == [] then [] else [cs[0].c] + TextOf(cs[1..]) }

  function Quote(t: string): seq<Char> {
    if t == [] then [] else [Char(t[0], t[0] == '\'' || t[0] == '\\')] + Quote(t[1..])
  }

  /** Any text at all can be written as a value, so no text inside one is ever taken for a key. */
  lemma {:induction false} AnyTextQuotes(t: string)
    ensures LegalValue(Quoted(Quote(t))) && TextOf(Quote(t)) == t
  {
    if t != [] {
      AnyTextQuotes(t[1..]);
      assert t == [t[0]] + t[1..];
    }
  }

  /** A name inside a value is not a parameter: the keys of one quoted pair, for every text. */
  lemma ValueTextIsNoKey(key: string, text: string)
    requires IsWord(key)
    ensures Keys(WriteItem(Pair(0, key, 0, 0, Quoted(Quote(text))), [])) == {key}
  {
    AnyTextQuotes(text);
    PairScanned(Pair(0, key, 0, 0, Quoted(Quote(text))), []);
  }

  // -------------------------------------------------- separators of other blanks

  /** libpq's blanks; the scanner knows the first only. */
  predicate IsBlank(c: char) { c == ' ' || c == '\t' || c == '\n' || c == '\r' || c as int == 0x0B || c as int == 0x0C }

  predicate Blank(s: string) { forall i :: 0 <= i < |s| ==> IsBlank(s[i]) }
  predicate NoEquals(s: string) { forall i :: 0 <= i < |s| ==> s[i] != '=' }
  predicate AllSpaces(s: string) { forall i :: 0 <= i < |s| ==> s[i] == ' ' }
  predicate Unspaced(s: string) { forall i :: 0 <= i < |s| ==> s[i] != ' ' }

  /** What follows the last space. */
  function Tail(s: string): (t: string)
    ensures Unspaced(t)
    ensures Blank(s) ==> Blank(t)
  {
    if Unspaced(s) then s else Tail(s[1..])
  }

  /** `key=value` after a separator of any blanks. */
  datatype Piece = Piece(sep: string, key: string, value: Value)

  function WritePair(p: Piece, rest: string): string { p.key + (['='] + WriteValue(p.value, rest)) }

  function WritePieces(ps: seq<Piece>): string {
    if ps == [] then [] else ps[0].sep + WritePair(ps[0], WritePieces(ps[1..]))
  }

  predicate IsName(k: string) { IsWord(k) && forall i :: 0 <= i < |k| ==> !IsBlank(k[i]) }

  /** Every blank of an unquoted value is escaped: an unescaped one would end it. */
  predicate LegalPiece(p: Piece) {
    && Blank(p.sep) && IsName(p.key) && LegalValue(p.value)
    && (p.value.Plain? ==> forall i :: 0 <= i < |p.value.chars| && IsBlank(p.value.chars[i].c) ==> p.value.chars[i].escaped)
  }

  /** `glued`: an unquoted value stands before. The scanner takes the pair for a part of it. */
  predicate Hidden(p: Piece, glued: bool) { glued && Unspaced(p.sep) }

  /** A hidden pair has no quotes: they would not be read as such. */
  predicate LegalPieces(ps: seq<Piece>, glued: bool)
    decreases |ps|
  {
    ps == [] || (LegalPiece(ps[0]) && (Hidden(ps[0], glued) ==> ps[0].value.Plain?) && LegalPieces(ps[1..], ps[0].value.Plain?))
  }

  /** What the scanner finds: a key with the blanks before it since the last space, but for the hidden. */
  function Found(ps: seq<Piece>, glued: bool): set<string>
    decreases |ps|
  {
    if ps == [] then {}
    else (if Hidden(ps[0], glued) then {} else {Tail(ps[0].sep) + ps[0].key}) + Found(ps[1..], ps[0].value.Plain?)
  }

  function KeySet(ps: seq<Piece>): set<string> { if ps == [] then {} else {ps[0].key} + KeySet(ps[1..]) }

  predicate DistinctKeys(ps: seq<Piece>) { ps == [] || (ps[0].key !in KeySet(ps[1..]) && DistinctKeys(ps[1..])) }

  /** The separator ends in a space; or there is none, at the start or after a quoted value. */
  predicate Separates(sep: string, glued: bool) { if sep == [] then !glued else sep[|sep| - 1] == ' ' }

  predicate AllSeparate(ps: seq<Piece>, glued: bool)
    decreases |ps|
  {
    ps == [] || (Separates(ps[0].sep, glued) && AllSeparate(ps[1..], ps[0].value.Plain?))
  }

  lemma SpaceSkipped(s: string)
    ensures Keys([' '] + s) == Keys(s)
  {
    assert ([' '] + s)[1..] == s;
    SkippedTwice([' '] + s);
    SkippedTwice(s);
  }

  /** A character more in front of a word that has no value changes nothing. */
  lemma WordGrows(c: char, s: string)
    requires !EndsKey(c) && s != []
    requires var rest := SkipBlanks(AfterKey(s)); rest == [] || rest[0] != '='
    ensures Keys([c] + s) == Keys(s)
  {
    var t, rest := [c] + s, SkipBlanks(AfterKey(s));
    assert t[1..] == s;
    assert AfterKey(t) == AfterKey(s);
    KeysWord(t, t, rest);
    if s[0] == ' ' {
      SkippedTwice(s);
    } else {
      KeysWord(s, s, rest);
    }
  }

  lemma {:induction false} BlanksEnd(sep: string, t: string)
    requires NoEquals(sep) && t != [] && !EndsKey(t[0])
    ensures var rest := SkipBlanks(sep + t); rest != [] && rest[0] != '='
  {
    if sep == [] {
      assert sep + t == t;
    } else {
      assert (sep + t)[1..] == sep[1..] + t;
      BlanksEnd(sep[1..], t);
    }
  }

  lemma {:induction false} SeparatorHasNoValue(sep: string, t: string)
    requires NoEquals(sep) && !Unspaced(sep) && t != [] && !EndsKey(t[0])
    ensures var rest := SkipBlanks(AfterKey(sep + t)); rest != [] && rest[0] != '='
  {
    if sep[0] == ' ' {
      BlanksEnd(sep, t);
    } else {
      assert (sep + t)[1..] == sep[1..] + t;
      SeparatorHasNoValue(sep[1..], t);
    }
  }

  /** Of text that holds no equals sign the scanner keeps what follows its last space. */
  lemma {:induction false} SeparatorSkipped(sep: string, t: string)
    requires NoEquals(sep) && t != [] && !EndsKey(t[0])
    ensures Keys(sep + t) == Keys(Tail(sep) + t)
  {
    if !Unspaced(sep) {
      var rest := sep[1..];
      assert sep + t == [sep[0]] + (rest + t);
      SeparatorSkipped(rest, t);
      if sep[0] == ' ' {
        SpaceSkipped(rest + t);
      } else {
        SeparatorHasNoValue(rest, t);
        WordGrows(sep[0], rest + t);
      }
    }
  }

  /** After an unquoted value the scanner reads on to the first space. */
  lemma {:induction false} SeparatorEndsPlain(sep: string, t: string)
    requires Blank(sep) && !Unspaced(sep) && t != [] && !EndsKey(t[0])
    ensures Keys(AfterPlain(sep + t)) == Keys(Tail(sep) + t)
  {
    if sep[0] == ' ' {
      SeparatorSkipped(sep, t);
    } else {
      assert (sep + t)[1..] == sep[1..] + t;
      SeparatorEndsPlain(sep[1..], t);
    }
  }

  /** Text without a space is a part of the unquoted value before it, up to the equals sign and over it. */
  lemma {:induction false} GluedSkipped(w: string, t: string)
    requires Unspaced(w)
    ensures AfterPlain(w + (['='] + t)) == AfterPlain(t)
  {
    var s := w + (['='] + t);
    if w == [] {
      assert s[1..] == t;
    } else if w[0] != '\\' {
      assert s[1..] == w[1..] + (['='] + t);
      GluedSkipped(w[1..], t);
    } else if |w| == 1 {
      assert s[2..] == t;
    } else {
      assert s[2..] == w[2..] + (['='] + t);
      GluedSkipped(w[2..], t);
    }
  }

  lemma {:induction false} CharsSkipped(cs: seq<Char>, s: string)
    requires Escaped(cs, ' ')
    ensures AfterPlain(Chars(cs) + s) == AfterPlain(s)
  {
    if cs == [] {
      assert Chars(cs) + s == s;
    } else {
      PastFirst(cs, s);
      CharsSkipped(cs[1..], s);
    }
  }

  lemma ValuePassed(v: Value, rest: string)
    requires LegalValue(v)
    ensures SkipBlanks(WriteValue(v, rest)) == WriteValue(v, rest)
    ensures AfterValue(WriteValue(v, rest)) == if v.Plain? then AfterPlain(rest) else rest
  {
    match v
    case Quoted(cs) => ValueSkipped(v, rest);
    case Plain(cs) =>
      PastFirst(cs, rest);
      CharsSkipped(cs, rest);
  }

  lemma PairFound(tail: string, p: Piece, rest: string)
    requires LegalPiece(p) && Blank(tail) && Unspaced(tail)
    ensures Keys(tail + WritePair(p, rest)) == {tail + p.key} + Keys(if p.value.Plain? then AfterPlain(rest) else rest)
  {
    var value := WriteValue(p.value, rest);
    var word, eq := tail + p.key, ['='] + value;
    assert tail + (p.key + eq) == word + eq;
    WordTaken(word, eq);
    ValuePassed(p.value, rest);
    assert eq[1..] == value && SkipBlanks(eq) == eq && SkipBlanks(word + eq) == word + eq;
    KeysPair(word + eq, word + eq, eq, value);
  }

  lemma PieceScanned(p: Piece, glued: bool, rest: string)
    requires LegalPiece(p) && (Hidden(p, glued) ==> p.value.Plain?)
    ensures
      var s := p.sep + WritePair(p, rest);
      Keys(if glued then AfterPlain(s) else s) ==
        (if Hidden(p, glued) then {} else {Tail(p.sep) + p.key}) + Keys(if p.value.Plain? then AfterPlain(rest) else rest)
  {
    var pair := WritePair(p, rest);
    if Hidden(p, glued) {
      var w := p.sep + p.key;
      assert p.sep + pair == w + (['='] + WriteValue(p.value, rest));
      GluedSkipped(w, WriteValue(p.value, rest));
      CharsSkipped(p.value.chars, rest);
    } else {
      assert pair[0] == p.key[0];
      PairFound(Tail(p.sep), p, rest);
      if glued {
        SeparatorEndsPlain(p.sep, pair);
      } else {
        SeparatorSkipped(p.sep, pair);
      }
    }
  }

  /** What the scanner finds in pairs separated by any blanks. */
  lemma {:induction false} PiecesScanned(ps: seq<Piece>, glued: bool)
    requires LegalPieces(ps, glued)
    ensures Keys(if glued then AfterPlain(WritePieces(ps)) else WritePieces(ps)) == Found(ps, glued)
    decreases |ps|
  {
    if ps != [] {
      PiecesScanned(ps[1..], ps[0].value.Plain?);
      PieceScanned(ps[0], glued, WritePieces(ps[1..]));
    }
  }

  lemma {:induction false} TailEmpty(sep: string)
    ensures Tail(sep) == [] <==> sep == [] || sep[|sep| - 1] == ' '
  {
    if !Unspaced(sep) && |sep| > 1 {
      TailEmpty(sep[1..]);
    }
  }

  lemma NotAfterBlanks(blanks: string, k: string)
    requires Blank(blanks)
    ensures if blanks == [] then blanks + k == k else IsBlank((blanks + k)[0]) && !IsName(blanks + k)
  {
    if blanks != [] {
      assert (blanks + k)[0] == blanks[0];
    }
  }

  /** Of the names found those without a blank are keys of the pairs. */
  lemma {:induction false} FoundNames(ps: seq<Piece>, glued: bool, k: string)
    requires LegalPieces(ps, glued) && IsName(k) && k in Found(ps, glued)
    ensures k in KeySet(ps)
    decreases |ps|
  {
    if k in Found(ps[1..], ps[0].value.Plain?) {
      FoundNames(ps[1..], ps[0].value.Plain?, k);
    } else {
      NotAfterBlanks(Tail(ps[0].sep), ps[0].key);
    }
  }

  lemma {:induction false} FoundExact(ps: seq<Piece>, glued: bool)
    requires LegalPieces(ps, glued) && DistinctKeys(ps)
    ensures Found(ps, glued) == KeySet(ps) <==> AllSeparate(ps, glued)
    decreases |ps|
  {
    if ps != [] {
      var p, more := ps[0], ps[0].value.Plain?;
      FoundExact(ps[1..], more);
      TailEmpty(p.sep);
      if p.key in Found(ps[1..], more) {
        FoundNames(ps[1..], more, p.key);
      }
      if Separates(p.sep, glued) {
        assert Tail(p.sep) + p.key == p.key;
        assert Found(ps, glued) == {p.key} + Found(ps[1..], more) && KeySet(ps) == {p.key} + KeySet(ps[1..]);
        assert Found(ps[1..], more) == Found(ps, glued) - {p.key} && KeySet(ps[1..]) == KeySet(ps) - {p.key};
      } else {
        assert |Tail(p.sep) + p.key| > |p.key| || Hidden(p, glued);
        assert p.key in KeySet(ps) && p.key !in Found(ps, glued);
      }
    }
  }

  /** Which separators serve: of pairs of distinct keys the scanner finds exactly the keys if and only if
      every separator ends in a space, or is left out at the start or after a quoted value. */
  lemma SeparatorsThatServe(ps: seq<Piece>)
    requires LegalPieces(ps, false) && DistinctKeys(ps)
    ensures Keys(WritePieces(ps)) == KeySet(ps) <==> AllSeparate(ps, false)
  {
    PiecesScanned(ps, false);
    FoundExact(ps, false);
  }

  /** A tab, or any blanks without a space, between two unquoted pairs hides the second. */
  lemma TabHidesKey(p: Piece, q: Piece)
    requires LegalPiece(p) && LegalPiece(q) && p.value.Plain? && q.value.Plain?
    requires p.sep == [] && Unspaced(q.sep)
    ensures Keys(WritePieces([p, q])) == {p.key}
  {
    var ps := [p, q];
    assert ps[1..] == [q] && ps[1..][1..] == [] && LegalPieces([], true);
    PiecesScanned(ps, false);
    assert Tail([]) + p.key == p.key;
    assert Found([q], true) == {};
  }

  // -------------------------------------------------- other blanks around the equals sign

  /** The text without the spaces at its end. */
  function Stripped(s: string): (r: string)
    ensures r <= s && (r != [] ==> r[|r| - 1] != ' ')
  {
    if s != [] && s[|s| - 1] == ' ' then Stripped(s[..|s| - 1]) else s
  }

  /** The key the scanner reads in a key and the blanks before the equals sign. */
  function KeyRead(key: string, left: string): string { Tail(Stripped(key + left)) }

  lemma {:induction false} StrippedThenSpaces(s: string)
    ensures s == Stripped(s) + Blanks(|s| - |Stripped(s)|)
    decreases |s|
  {
    if s != [] && s[|s| - 1] == ' ' {
      var n := |s| - 1;
      StrippedThenSpaces(s[..n]);
      var k := n - |Stripped(s[..n])|;
      BlanksSnoc(k);
      assert s == s[..n] + [' '];
      Regroup(Stripped(s[..n]), Blanks(k), [' ']);
    }
  }

  lemma {:induction false} BlanksSnoc(n: nat)
    ensures Blanks(n) + [' '] == Blanks(n + 1)
  {
    if n > 0 {
      BlanksSnoc(n - 1);
      Regroup([' '], Blanks(n - 1), [' ']);
    } else {
      assert Blanks(1) == [' '] + Blanks(0);
    }
  }

  lemma Regroup(a: string, b: string, c: string)
    ensures (a + b) + c == a + (b + c)
  {
  }

  lemma {:induction false} SpacesStripped(key: string, left: string)
    requires key != [] && key[|key| - 1] != ' '
    ensures AllSpaces(left) ==> Stripped(key + left) == key
    ensures !AllSpaces(left) ==> |Stripped(key + left)| > |key|
    decreases |left|
  {
    if left == [] {
      assert key + left == key;
    } else {
      var n := |left| - 1;
      var s := key + left;
      assert s[..|s| - 1] == key + left[..n] && s[|s| - 1] == left[n];
      if left[n] == ' ' {
        SpacesStripped(key, left[..n]);
        assert AllSpaces(left) <==> AllSpaces(left[..n]) by {
          assert forall i :: 0 <= i < n ==> left[i] == left[..n][i];
        }
      }
    }
  }

  lemma {:induction false} TailSnoc(s: string, c: char)
    requires c != ' '
    ensures Tail(s + [c]) == Tail(s) + [c]
  {
    assert forall i :: 0 <= i < |s| ==> (s + [c])[i] == s[i];
    if !Unspaced(s) {
      var i :| 0 <= i < |s| && s[i] == ' ';
      assert (s + [c])[i] == ' ';
      assert (s + [c])[1..] == s[1..] + [c];
      TailSnoc(s[1..], c);
    }
  }

  lemma {:induction false} TailOfUnspaced(s: string)
    requires Unspaced(s)
    ensures Tail(s) == s
  {
  }

  lemma WordBeforeEquals(word: string, n: nat, u: string)
    requires IsWord(word)
    ensures Keys(word + (Blanks(n) + (['='] + u))) == {word} + Keys(AfterValue(SkipBlanks(u)))
  {
    var eq := ['='] + u;
    var after := Blanks(n) + eq;
    BlanksSkipped(n, eq);
    assert SkipBlanks(eq) == eq && eq[1..] == u;
    assert n > 0 ==> after[0] == ' ';
    WordTaken(word, after);
    assert (word + after)[0] == word[0];
    KeysPair(word + after, word + after, eq, SkipBlanks(u));
  }

  /** Of text before an equals sign the scanner reads what follows the last space but those at the end. */
  lemma TextBeforeEquals(w: string, after: string)
    requires w != [] && w[|w| - 1] != ' ' && NoEquals(w)
    ensures Keys(w + after) == Keys(Tail(w) + after) && IsWord(Tail(w))
  {
    var init, c := w[..|w| - 1], w[|w| - 1];
    assert w == init + [c];
    Regroup(init, [c], after);
    SeparatorSkipped(init, [c] + after);
    TailSnoc(init, c);
    Regroup(Tail(init), [c], after);
    TailIn(w);
  }

  lemma {:induction false} TailIn(s: string)
    ensures |Tail(s)| <= |s| && forall i :: 0 <= i < |Tail(s)| ==> Tail(s)[i] in s
  {
    if !Unspaced(s) {
      TailIn(s[1..]);
    }
  }

  lemma KeyReadExact(key: string, left: string)
    requires IsName(key) && Blank(left)
    ensures KeyRead(key, left) == key <==> AllSpaces(left)
  {
    var r := Stripped(key + left);
    SpacesStripped(key, left);
    if AllSpaces(left) {
      TailOfUnspaced(key);
    } else {
      var c := r[|r| - 1];
      assert c == left[|r| - 1 - |key|];
      assert r == r[..|r| - 1] + [c];
      TailSnoc(r[..|r| - 1], c);
      assert IsBlank(KeyRead(key, left)[|KeyRead(key, left)| - 1]);
    }
  }

  lemma StrippedShape(key: string, left: string)
    requires IsName(key) && Blank(left)
    ensures
      var r := Stripped(key + left);
      r != [] && r[|r| - 1] != ' ' && NoEquals(r) && key + left == r + Blanks(|key + left| - |r|)
  {
    var w := key + left;
    SpacesStripped(key, left);
    StrippedThenSpaces(w);
    assert forall i :: 0 <= i < |Stripped(w)| ==> Stripped(w)[i] == w[i];
  }

  lemma Rejoin(a: string, b: string, c: string, d: string, rest: string)
    requires a + b == c + d
    ensures a + (b + rest) == c + (d + rest)
  {
    Regroup(a, b, rest);
    Regroup(c, d, rest);
  }

  lemma TextRead(w: string, n: nat, u: string)
    requires w != [] && w[|w| - 1] != ' ' && NoEquals(w)
    ensures Keys(w + (Blanks(n) + (['='] + u))) == {Tail(w)} + Keys(AfterValue(SkipBlanks(u)))
  {
    TextBeforeEquals(w, Blanks(n) + (['='] + u));
    WordBeforeEquals(Tail(w), n, u);
  }

  /** `key`, blanks, the sign, and anything: one key is read there, the key itself or another. */
  lemma KeyBeforeBlanks(key: string, left: string, u: string)
    requires IsName(key) && Blank(left)
    ensures Keys(key + (left + (['='] + u))) == {KeyRead(key, left)} + Keys(AfterValue(SkipBlanks(u)))
  {
    var r := Stripped(key + left);
    var n := |key + left| - |r|;
    StrippedShape(key, left);
    Rejoin(key, left, r, Blanks(n), ['='] + u);
    TextRead(r, n, u);
  }

  /** A quoted text after the sign and any blanks. */
  function AfterSign(right: string, text: string): string { right + WriteValue(Quoted(Quote(text)), []) }

  lemma {:induction false} SpacesSkipped(right: string, s: string)
    requires s != [] && s[0] != ' '
    ensures SkipBlanks(right + s) == if AllSpaces(right) then s else SkipBlanks(right) + s
    ensures AllSpaces(right) <==> SkipBlanks(right) == []
    decreases |right|
  {
    if right == [] {
      assert right + s == s;
    } else {
      assert (right + s)[1..] == right[1..] + s;
      SpacesSkipped(right[1..], s);
    }
  }

  lemma {:induction false} SkippedBlank(right: string)
    requires Blank(right)
    ensures Blank(SkipBlanks(right))
  {
    if right != [] && right[0] == ' ' {
      SkippedBlank(right[1..]);
    }
  }

  /** After blanks that are not all spaces the quote is not seen: reading on to the first space, the
      scanner takes what follows for names. */
  lemma QuoteUnseen(right: string, rest: string)
    requires Blank(right) && !AllSpaces(right)
    requires rest == [] || rest[0] == ' '
    requires SkipBlanks(rest) == [] || SkipBlanks(rest)[0] != '='
    ensures Keys(AfterValue(SkipBlanks(right + (['\''] + rest)))) == Keys(rest)
  {
    var q, r := ['\''] + rest, SkipBlanks(right);
    SpacesSkipped(right, q);
    SkippedBlank(right);
    assert (r + q)[0] == r[0];
    if Unspaced(r) {
      UnspacedPassed(r, q);
      assert q[1..] == rest;
    } else {
      SeparatorEndsPlain(r, q);
      var word := Tail(r) + ['\''];
      Regroup(Tail(r), ['\''], rest);
      WordTaken(word, rest);
      assert (word + rest)[0] == word[0];
      KeysWord(word + rest, word + rest, SkipBlanks(rest));
      SkippedTwice(rest);
    }
  }

  lemma {:induction false} UnspacedPassed(r: string, s: string)
    requires Blank(r) && Unspaced(r)
    ensures AfterPlain(r + s) == AfterPlain(s)
  {
    if r == [] {
      assert r + s == s;
    } else {
      assert (r + s)[1..] == r[1..] + s;
      UnspacedPassed(r[1..], s);
    }
  }

  /** A text that reads as another pair. */
  function Leaking(name: string): string { [' '] + (name + ['=']) }

  lemma {:induction false} QuotedAsIs(t: string)
    requires forall i :: 0 <= i < |t| ==> t[i] != '\'' && t[i] != '\\'
    ensures Chars(Quote(t)) == t
  {
    if t != [] {
      QuotedAsIs(t[1..]);
      assert Quote(t)[1..] == Quote(t[1..]);
      assert t == [t[0]] + t[1..];
    }
  }

  /** A name inside a quoted value is taken for a parameter when the blanks after the sign are not all spaces. */
  lemma BlankLetsNameOut(key: string, left: string, right: string, name: string)
    requires IsName(key) && Blank(left) && Blank(right) && !AllSpaces(right)
    requires IsWord(name) && forall i :: 0 <= i < |name| ==> name[i] != '\'' && name[i] != '\\'
    ensures Keys(key + (left + (['='] + AfterSign(right, Leaking(name))))) == {KeyRead(key, left), name}
  {
    var text := Leaking(name);
    var rest := text + ['\''];
    QuotedAsIs(text);
    KeyBeforeBlanks(key, left, AfterSign(right, text));
    assert WriteValue(Quoted(Quote(text)), []) == ['\''] + rest by {
      assert ['\''] + [] == ['\''];
    }
    var pair := name + (['='] + ['\'']);
    assert rest == [' '] + pair;
    assert pair[0] == name[0] && SkipBlanks(pair) == pair && rest[1..] == pair;
    QuoteUnseen(right, rest);
    SpaceSkipped(pair);
    LoneQuote(name);
  }

  lemma LoneQuote(name: string)
    requires IsWord(name)
    ensures Keys(name + (['='] + ['\''])) == {name}
  {
    assert Blanks(0) + (['='] + ['\'']) == ['='] + ['\''];
    WordBeforeEquals(name, 0, ['\'']);
    assert ['\''][1..] == [];
  }

  /** Which blanks serve around the equals sign: exactly the key is found, whatever text the value quotes, if
      and only if they are all spaces, on both sides. */
  lemma BlanksAroundEquals(key: string, left: string, right: string)
    requires IsName(key) && Blank(left) && Blank(right)
    ensures (forall text :: Keys(key + (left + (['='] + AfterSign(right, text)))) == {key}) <==> AllSpaces(left) && AllSpaces(right)
  {
    KeyReadExact(key, left);
    if AllSpaces(right) {
      forall text ensures Keys(key + (left + (['='] + AfterSign(right, text)))) == {KeyRead(key, left)} {
        AnyTextQuotes(text);
        var v := Quoted(Quote(text));
        ValueSkipped(v, []);
        SpacesSkipped(right, WriteValue(v, []));
        KeyBeforeBlanks(key, left, AfterSign(right, text));
      }
      KeyBeforeBlanks(key, left, AfterSign(right, ""));
    } else {
      var name := if key == "a" then "b" else "a";
      BlankLetsNameOut(key, left, right, name);
      assert name in Keys(key + (left + (['='] + AfterSign(right, Leaking(name)))));
    }
  }
}
