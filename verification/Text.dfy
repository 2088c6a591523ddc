/** Go's string helpers the modelled code uses, with the facts about them the proofs need. */
module Text {
  // ------------------------------------------------------------------ TrimSpace

  /** unicode.IsSpace. */
  predicate IsSpace(c: char) {
    || c == ' ' || c == '\t' || c == '\n' || c == '\r' || c as int in {0x0B, 0x0C, 0x85, 0xA0, 0x1680}
    || 0x2000 <= c as int <= 0x200A || c as int in {0x2028, 0x2029, 0x202F, 0x205F, 0x3000}
  }

  function TrimLeft(s: string): string {
    if s != [] && IsSpace(s[0]) then TrimLeft(s[1..]) else s
  }

  function TrimRight(s: string): string {
    if s != [] && IsSpace(s[|s| - 1]) then TrimRight(s[..|s| - 1]) else s
  }

  /** strings.TrimSpace. */
  function Trim(s: string): string { TrimRight(TrimLeft(s)) }

  predicate AllSpace(s: string) { forall i :: 0 <= i < |s| ==> IsSpace(s[i]) }

  predicate Trimmed(s: string) { s == "" || (!IsSpace(s[0]) && !IsSpace(s[|s| - 1])) }

  lemma {:induction false} TrimLeftStops(left: string, s: string)
    requires AllSpace(left) && (s == "" || !IsSpace(s[0]))
    ensures TrimLeft(left + s) == s
  {
    if left == "" {
      assert left + s == s;
    } else {
      assert (left + s)[1..] == left[1..] + s;
      TrimLeftStops(left[1..], s);
    }
  }

  lemma {:induction false} TrimRightStops(s: string, right: string)
    requires AllSpace(right) && (s == "" || !IsSpace(s[|s| - 1]))
    ensures TrimRight(s + right) == s
    decreases |right|
  {
    if right == "" {
      assert s + right == s;
    } else {
      var n := |right| - 1;
      assert (s + right)[..|s + right| - 1] == s + right[..n];
      TrimRightStops(s, right[..n]);
    }
  }

  lemma {:induction false} AllTrimmedAway(s: string)
    requires AllSpace(s)
    ensures TrimLeft(s) == "" && Trim(s) == ""
  {
    if s != "" {
      AllTrimmedAway(s[1..]);
    }
  }

  /** Trimming takes away the white space at both ends, all of it and nothing else. */
  lemma TrimTrims(left: string, s: string, right: string)
    requires AllSpace(left) && AllSpace(right) && Trimmed(s)
    ensures Trim(left + (s + right)) == s
  {
    if s == "" {
      assert AllSpace(left + (s + right));
      AllTrimmedAway(left + (s + right));
    } else {
      assert (s + right)[0] == s[0];
      TrimLeftStops(left, s + right);
      TrimRightStops(s, right);
    }
  }

  // -------------------------------------------------------------- Split and Join

  /** strings.Split by one character: never empty. */
  function Split(s: string, sep: char): (parts: seq<string>)
    ensures |parts| > 0
  {
    if s == [] then [""]
    else
      var rest := Split(s[1..], sep);
      if s[0] == sep then [""] + rest else [[s[0]] + rest[0]] + rest[1..]
  }

  /** strings.Join. */
  function Join(parts: seq<string>, sep: string): string {
    if parts == [] then "" else if |parts| == 1 then parts[0] else parts[0] + sep + Join(parts[1..], sep)
  }

  predicate Lacks(s: string, c: char) { c !in s }

  lemma {:induction false} SplitWord(w: string, sep: char)
    requires Lacks(w, sep)
    ensures Split(w, sep) == [w]
  {
    if w != [] {
      SplitWord(w[1..], sep);
      assert w == [w[0]] + w[1..];
    }
  }

  lemma {:induction false} SplitFirst(w: string, sep: char, rest: string)
    requires Lacks(w, sep)
    ensures Split(w + [sep] + rest, sep) == [w] + Split(rest, sep)
  {
    var s := w + [sep] + rest;
    if w == [] {
      assert s[1..] == rest;
    } else {
      assert s[1..] == w[1..] + [sep] + rest;
      SplitFirst(w[1..], sep, rest);
      assert [w[0]] + w[1..] == w;
    }
  }

  /** Splitting undoes joining: parts without the separator come back as they were. */
  lemma {:induction false} JoinSplits(parts: seq<string>, sep: char)
    requires parts != [] && forall i :: 0 <= i < |parts| ==> Lacks(parts[i], sep)
    ensures Split(Join(parts, [sep]), sep) == parts
    decreases |parts|
  {
    if |parts| == 1 {
      SplitWord(parts[0], sep);
    } else {
      JoinSplits(parts[1..], sep);
      SplitFirst(parts[0], sep, Join(parts[1..], [sep]));
      assert [parts[0]] + parts[1..] == parts;
    }
  }

  lemma Regroup(a: string, b: string, c: string)
    ensures (a + b) + c == a + (b + c)
  {
  }

  // ------------------------------------------------------------------ sort.Strings

  /** Go's order of strings; in UTF-8 the order of bytes is that of code points. */
  predicate Leq(a: string, b: string) {
    a == [] || (b != [] && (a[0] < b[0] || (a[0] == b[0] && Leq(a[1..], b[1..]))))
  }

  /** The first place where they differ, a before b. */
  predicate DiffersAt(a: string, b: string, i: int) { 0 <= i < |a| && i < |b| && a[..i] == b[..i] && a[i] < b[i] }

  lemma DiffersNext(a: string, b: string, i: nat)
    requires a != [] && b != [] && a[0] == b[0]
    ensures DiffersAt(a, b, i + 1) <==> DiffersAt(a[1..], b[1..], i)
    ensures !DiffersAt(a, b, 0)
  {
    if i < |a| - 1 && i < |b| - 1 {
      assert a[..i + 1] == [a[0]] + a[1..][..i] && b[..i + 1] == [b[0]] + b[1..][..i];
      assert a[1..][..i] == a[..i + 1][1..] && b[1..][..i] == b[..i + 1][1..];
    }
  }

  lemma PrefixNext(a: string, b: string)
    requires a != [] && b != [] && a[0] == b[0]
    ensures a <= b <==> a[1..] <= b[1..]
  {
    assert a == [a[0]] + a[1..] && b == [b[0]] + b[1..];
  }

  /** It is the lexicographic order: a prefix first, else by the first character that differs. */
  lemma {:induction false} LeqIs(a: string, b: string)
    ensures Leq(a, b) <==> a <= b || exists i :: DiffersAt(a, b, i)
  {
    if a != [] && b != [] && a[0] == b[0] {
      LeqIs(a[1..], b[1..]);
      PrefixNext(a, b);
      if i :| DiffersAt(a, b, i) {
        DiffersNext(a, b, if i > 0 then i - 1 else 0);
      }
      if i :| DiffersAt(a[1..], b[1..], i) {
        DiffersNext(a, b, i);
      }
    } else if a != [] && b != [] {
      assert a[..0] == b[..0];
      NoPrefix(a, b);
      assert a[0] < b[0] ==> DiffersAt(a, b, 0);
      assert forall i :: DiffersAt(a, b, i) && i > 0 ==> a[0] == a[..i][0] == b[..i][0] == b[0];
    }
  }

  lemma {:induction false} LeqAntisymmetric(a: string, b: string)
    requires Leq(a, b) && Leq(b, a)
    ensures a == b
  {
    if a != [] {
      LeqAntisymmetric(a[1..], b[1..]);
      assert a == [a[0]] + a[1..] && b == [b[0]] + b[1..];
    }
  }

  lemma {:induction false} LeqTransitive(a: string, b: string, c: string)
    requires Leq(a, b) && Leq(b, c)
    ensures Leq(a, c)
  {
    if a != [] && a[0] == b[0] && b[0] == c[0] {
      LeqTransitive(a[1..], b[1..], c[1..]);
    }
  }

  lemma {:induction false} LeqTotal(a: string, b: string)
    ensures Leq(a, b) || Leq(b, a)
  {
    if a != [] && b != [] && a[0] == b[0] {
      LeqTotal(a[1..], b[1..]);
    }
  }

  lemma NoPrefix<T>(a: seq<T>, b: seq<T>)
    requires a != [] && b != [] && a[0] != b[0]
    ensures !(a <= b)
  {
  }

  predicate Sorted(ks: seq<string>) {
    forall i, j :: 0 <= i < j < |ks| ==> ks[i] != ks[j] && Leq(ks[i], ks[j])
  }

  function Insert(k: string, ks: seq<string>): seq<string> {
    if ks == [] || Leq(k, ks[0]) then [k] + ks else [ks[0]] + Insert(k, ks[1..])
  }

  /** sort.Strings, by insertion. */
  function Sort(ks: seq<string>): seq<string> {
    if ks == [] then [] else Insert(ks[0], Sort(ks[1..]))
  }

  predicate Distinct(ks: seq<string>) { forall i, j :: 0 <= i < j < |ks| ==> ks[i] != ks[j] }

  function Elements(ks: seq<string>): set<string> { set k | k in ks }

  lemma {:induction false} InsertSorted(k: string, ks: seq<string>)
    requires Sorted(ks) && k !in ks
    ensures Sorted(Insert(k, ks)) && Elements(Insert(k, ks)) == {k} + Elements(ks)
    ensures |Insert(k, ks)| == |ks| + 1
  {
    if ks == [] {
    } else if Leq(k, ks[0]) {
      forall j | 0 <= j < |ks| ensures Leq(k, ks[j]) {
        if j > 0 { LeqTransitive(k, ks[0], ks[j]); }
      }
    } else {
      LeqTotal(k, ks[0]);
      InsertSorted(k, ks[1..]);
      var rest := Insert(k, ks[1..]);
      forall x | x in rest ensures x != ks[0] && Leq(ks[0], x) {
        assert x in {k} + Elements(ks[1..]);
      }
      assert Elements([ks[0]] + rest) == {ks[0]} + Elements(rest);
      assert Elements(ks) == {ks[0]} + Elements(ks[1..]);
    }
  }

  lemma {:induction false} SortSorted(ks: seq<string>)
    requires Distinct(ks)
    ensures Sorted(Sort(ks)) && Elements(Sort(ks)) == Elements(ks) && |Sort(ks)| == |ks|
  {
    if ks != [] {
      SortSorted(ks[1..]);
      assert ks[0] !in ks[1..];
      assert ks[0] !in Elements(ks[1..]);
      InsertSorted(ks[0], Sort(ks[1..]));
      assert Elements(ks) == {ks[0]} + Elements(ks[1..]);
    }
  }

  /** A set of strings has one sorted listing: whatever order a map is walked in, sorting its keys
      gives the same sequence. */
  lemma {:induction false} SortedUnique(a: seq<string>, b: seq<string>)
    requires Sorted(a) && Sorted(b) && Elements(a) == Elements(b)
    ensures a == b
  {
    if a == [] {
      assert forall i :: 0 <= i < |b| ==> b[i] in Elements(b);
    } else {
      assert a[0] in Elements(b) && b != [];
      assert b[0] in Elements(a);
      if a[0] != b[0] {
        LeqAntisymmetric(a[0], b[0]);
      }
      forall x | x in Elements(a[1..]) ensures x in Elements(b[1..]) {
        assert x in Elements(b) && x != a[0];
      }
      forall x | x in Elements(b[1..]) ensures x in Elements(a[1..]) {
        assert x in Elements(a) && x != b[0];
      }
      SortedUnique(a[1..], b[1..]);
      assert a == [a[0]] + a[1..] && b == [b[0]] + b[1..];
    }
  }

  // --------------------------------------------------------------------- numbers

  predicate IsDigit(c: char) { '0' <= c <= '9' }

  function Digit(d: nat): char
    requires d < 10
  {
    ('0' as int + d) as char
  }

  /** %d of a natural number. */
  function Decimal(n: nat): (s: string)
    ensures s != [] && forall i :: 0 <= i < |s| ==> IsDigit(s[i])
  {
    if n < 10 then [Digit(n)] else Decimal(n / 10) + [Digit(n % 10)]
  }

  /** The value of a digit string. */
  function Value(s: string): nat
    requires forall i :: 0 <= i < |s| ==> IsDigit(s[i])
  {
    if s == [] then 0 else assert IsDigit(s[|s| - 1]); 10 * Value(s[..|s| - 1]) + (s[|s| - 1] as int - '0' as int)
  }

  lemma {:induction false} DecimalValue(n: nat)
    ensures Value(Decimal(n)) == n
  {
    var s := Decimal(n);
    if n >= 10 {
      DecimalValue(n / 10);
      assert s[..|s| - 1] == Decimal(n / 10);
    } else {
      assert s[..0] == [];
    }
  }

  // ----------------------------------------------------------------- identifiers

  predicate IsLower(c: char) { 'a' <= c <= 'z' }

  predicate IsNameChar(c: char) { IsLower(c) || IsDigit(c) || c == '_' }

  predicate NameChars(s: string) { forall i :: 0 <= i < |s| ==> IsNameChar(s[i]) }

  /** ^[a-z_][a-z0-9_]*$ */
  predicate IsIdent(s: string) { s != "" && !IsDigit(s[0]) && NameChars(s) }

  /** By the characters themselves. */
  lemma IdentIs(s: string)
    ensures IsIdent(s) <==>
      && s != "" && ('a' <= s[0] <= 'z' || s[0] == '_')
      && forall i :: 0 <= i < |s| ==> 'a' <= s[i] <= 'z' || '0' <= s[i] <= '9' || s[i] == '_'
  {
    assert IsIdent(s) ==> IsNameChar(s[0]);
  }
}
