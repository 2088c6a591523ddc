/**
 The prefixes a process announces (module.go): the modules' own, less those nested under another, and
 the gateway's test of what it is told (internal/gatewaystub/stub.go).
 */
module Prefixes {
  import opened Options
  import opened Text

  /** strings.HasPrefix(p+"/", q+"/"): p lies on q or under it. */
  predicate Under(p: string, q: string) { q + "/" <= p + "/" }

  /** The segments of a path. */
  function Segments(p: string): (r: seq<string>)
    ensures r != []
  {
    Split(p, '/')
  }

  /** Nested by segments: p is q, or q's segments begin p's. */
  predicate On(p: string, q: string) { Segments(q) <= Segments(p) }

  lemma FirstSegment(p: string)
    ensures if p == "" || p[0] == '/' then Segments(p)[0] == "" else Segments(p)[0] != "" && Segments(p)[0][0] == p[0]
    ensures p != "" && p[0] == '/' ==> |Segments(p)| >= 2
    ensures p == "" ==> |Segments(p)| == 1
    ensures (p + "/")[0] == if p == "" then '/' else p[0]
  {
  }

  /** Nesting stops at a segment: what the code tests by text is nesting by segments. */
  lemma {:induction false} UnderIsOn(p: string, q: string)
    ensures Under(p, q) <==> On(p, q)
    decreases |q|
  {
    var a, b := p + "/", q + "/";
    FirstSegment(p);
    FirstSegment(q);
    if q == "" {
      assert b == "/" && |b| == 1;
      assert b <= a <==> a[0] == '/';
      assert Segments(q) == [""];
    } else if p == "" && q[0] == '/' {
      assert |b| > |a| && |Segments(q)| > |Segments(p)|;
    } else if p == "" || q[0] != p[0] {
      NoPrefix(b, a);
      NoPrefix(Segments(q), Segments(p));
    } else {
      var c := q[0];
      UnderIsOn(p[1..], q[1..]);
      assert a == [c] + (p[1..] + "/") && b == [c] + (q[1..] + "/");
      PrefixCons(c, q[1..] + "/", p[1..] + "/");
      if c == '/' {
        SegmentsCons("", Segments(q[1..]), Segments(p[1..]));
      } else {
        SegmentsGrow(c, Segments(q[1..]), Segments(p[1..]));
      }
    }
  }

  lemma NestingIsOn()
    ensures forall p, q :: Under(p, q) <==> On(p, q)
  {
    forall p, q ensures Under(p, q) <==> On(p, q) {
      UnderIsOn(p, q);
    }
  }

  lemma PrefixCons(c: char, s: string, t: string)
    ensures [c] + s <= [c] + t <==> s <= t
  {
    if [c] + s <= [c] + t {
      assert s == ([c] + s)[1..] && t == ([c] + t)[1..];
    }
  }

  lemma SegmentsCons(first: string, a: seq<string>, b: seq<string>)
    ensures [first] + a <= [first] + b <==> a <= b
  {
    if [first] + a <= [first] + b {
      assert a == ([first] + a)[1..] && b == ([first] + b)[1..];
    }
  }

  lemma SegmentsGrow(c: char, a: seq<string>, b: seq<string>)
    requires a != [] && b != []
    ensures [[c] + a[0]] + a[1..] <= [[c] + b[0]] + b[1..] <==> a <= b
  {
    var x, y := [[c] + a[0]] + a[1..], [[c] + b[0]] + b[1..];
    assert a[0] == ([c] + a[0])[1..] && b[0] == ([c] + b[0])[1..];
    assert a[1..] == x[1..] && b[1..] == y[1..];
    assert a == [a[0]] + a[1..] && b == [b[0]] + b[1..];
    if x <= y {
      assert x[0] == y[0];
      SegmentsCons(x[0], a[1..], b[1..]);
      SegmentsCons(a[0], a[1..], b[1..]);
    }
    if a <= b {
      assert a[0] == b[0];
      SegmentsCons(x[0], a[1..], b[1..]);
      SegmentsCons(a[0], a[1..], b[1..]);
    }
  }

  lemma UnderTransitive(p: string, q: string, r: string)
    requires Under(p, q) && Under(q, r)
    ensures Under(p, r)
  {
  }

  lemma UnderAntisymmetric(p: string, q: string)
    requires Under(p, q) && Under(q, p)
    ensures p == q
  {
    assert p + "/" == q + "/";
    assert p == (p + "/")[..|p|] && q == (q + "/")[..|q|];
  }

  /** The prefixes above one path form a chain. */
  lemma UnderChain(p: string, q: string, r: string)
    requires Under(p, q) && Under(p, r)
    ensures Under(q, r) || Under(r, q)
  {
    var a, b := q + "/", r + "/";
    if |a| <= |b| {
      assert b[..|a|] == (p + "/")[..|a|] == a;
    } else {
      assert a[..|b|] == (p + "/")[..|b|] == b;
    }
  }

  // ---------------------------------------------------------------------- New

  datatype Module = Module(name: string, prefixes: seq<string>)

  function All(modules: seq<Module>): seq<string> {
    if modules == [] then [] else modules[0].prefixes + All(modules[1..])
  }

  /** The modules' prefixes, one module after another. */
  lemma {:induction false} AllConcat(a: seq<Module>, b: seq<Module>)
    ensures All(a + b) == All(a) + All(b)
    ensures forall m: Module :: All([m]) == m.prefixes
  {
    forall m: Module ensures All([m]) == m.prefixes {
      assert [m][1..] == [] && m.prefixes + [] == m.prefixes;
    }
    if a == [] {
      assert a + b == b;
    } else {
      assert (a + b)[1..] == a[1..] + b;
      AllConcat(a[1..], b);
      assert a[0].prefixes + (All(a[1..]) + All(b)) == (a[0].prefixes + All(a[1..])) + All(b);
    }
  }

  /** Who claims which prefix, and twice. */
  datatype Clash = Clash(prefix: string, first: string, second: string)

  /** A module of that name lists the prefix. */
  predicate Claims(modules: seq<Module>, p: string, name: string) {
    exists i :: 0 <= i < |modules| && modules[i].name == name && p in modules[i].prefixes
  }

  /** The prefixes are distinct and none is taken. */
  predicate DistinctFrom(taken: set<string>, ps: seq<string>) {
    Distinct(ps) && forall i :: 0 <= i < |ps| ==> ps[i] !in taken
  }

  lemma DistinctConcat(taken: set<string>, a: seq<string>, b: seq<string>)
    ensures DistinctFrom(taken, a + b) <==> DistinctFrom(taken, a) && DistinctFrom(taken + Elements(a), b)
  {
    var ps := a + b;
    if DistinctFrom(taken, ps) {
      assert forall i :: 0 <= i < |a| ==> a[i] == ps[i];
      forall i | 0 <= i < |b| ensures b[i] !in taken + Elements(a) {
        assert b[i] == ps[|a| + i];
      }
      assert forall i, j :: 0 <= i < j < |b| ==> b[i] == ps[|a| + i] && b[j] == ps[|a| + j];
    }
    if DistinctFrom(taken, a) && DistinctFrom(taken + Elements(a), b) {
      forall i, j | 0 <= i < j < |ps| ensures ps[i] != ps[j] {
        if i < |a| <= j {
          assert a[i] in Elements(a) && ps[j] == b[j - |a|];
        }
      }
    }
  }

  lemma DistinctStep(taken: set<string>, ps: seq<string>, j: nat)
    requires j < |ps|
    ensures Elements(ps[..j + 1]) == Elements(ps[..j]) + {ps[j]}
    ensures DistinctFrom(taken, ps[..j + 1]) <==> DistinctFrom(taken, ps[..j]) && ps[j] !in taken + Elements(ps[..j])
    ensures DistinctFrom(taken, ps) ==> DistinctFrom(taken, ps[..j + 1])
  {
    assert ps[..j + 1] == ps[..j] + [ps[j]];
    DistinctConcat(taken, ps[..j], [ps[j]]);
    assert ps == ps[..j + 1] + ps[j + 1..];
    DistinctConcat(taken, ps[..j + 1], ps[j + 1..]);
  }

  /** One module's claims on top of those made: refused at the first prefix already taken. */
  method Claim(modules: seq<Module>, m: Module, owner: map<string, string>) returns (owner': map<string, string>, clash: Option<Clash>)
    requires m in modules && forall p :: p in owner ==> Claims(modules, p, owner[p])
    ensures clash.None? <==> DistinctFrom(owner.Keys, m.prefixes)
    ensures clash.None? ==> owner'.Keys == owner.Keys + Elements(m.prefixes)
    ensures forall p :: p in owner' ==> Claims(modules, p, owner'[p])
    ensures clash.Some? ==> Claims(modules, clash.value.prefix, clash.value.first) && Claims(modules, clash.value.prefix, clash.value.second)
  {
    owner' := owner;
    clash := None;
    for j := 0 to |m.prefixes|
      invariant DistinctFrom(owner.Keys, m.prefixes[..j]) && owner'.Keys == owner.Keys + Elements(m.prefixes[..j])
      invariant forall p :: p in owner' ==> Claims(modules, p, owner'[p])
    {
      var p := m.prefixes[j];
      DistinctStep(owner.Keys, m.prefixes, j);
      assert Claims(modules, p, m.name);
      if p in owner' {
        clash := Some(Clash(p, owner'[p], m.name));
        return;
      }
      owner' := owner'[p := m.name];
    }
    assert m.prefixes[..|m.prefixes|] == m.prefixes;
  }

  /** New's manifest check: refused exactly when no module is given or some prefix is claimed twice,
      within one module or by two; the modules named do both claim it. */
  method New(modules: seq<Module>) returns (ok: bool, clash: Option<Clash>)
    ensures ok <==> modules != [] && Distinct(All(modules))
    ensures clash.Some? <==> !ok && modules != []
    ensures clash.Some? ==> Claims(modules, clash.value.prefix, clash.value.first) && Claims(modules, clash.value.prefix, clash.value.second)
  {
    if |modules| == 0 {
      return false, None;
    }
    var owner: map<string, string> := map[];
    assert modules[0..] == modules;
    for i := 0 to |modules|
      invariant Distinct(All(modules)) <==> DistinctFrom(owner.Keys, All(modules[i..]))
      invariant forall p :: p in owner ==> Claims(modules, p, owner[p])
    {
      assert modules[i..][0] == modules[i] && modules[i..][1..] == modules[i + 1..];
      DistinctConcat(owner.Keys, modules[i].prefixes, All(modules[i + 1..]));
      owner, clash := Claim(modules, modules[i], owner);
      if clash.Some? {
        return false, clash;
      }
    }
    ok, clash := true, None;
  }

  // ------------------------------------------------------------------- Prefixes

  predicate Covered(all: seq<string>, p: string) { exists j :: 0 <= j < |all| && all[j] != p && Under(p, all[j]) }

  /** The uncovered ones, in order. */
  function Kept(all: seq<string>, ps: seq<string>): (out: seq<string>)
    ensures forall p :: p in out <==> p in ps && !Covered(all, p)
  {
    if ps == [] then []
    else
      var n := |ps| - 1;
      Kept(all, ps[..n]) + if Covered(all, ps[n]) then [] else [ps[n]]
  }

  /** The union of the modules' prefixes, in registration order. */
  method Flatten(modules: seq<Module>) returns (all: seq<string>)
    ensures all == All(modules)
  {
    all := [];
    assert modules[0..] == modules;
    for i := 0 to |modules|
      invariant all + All(modules[i..]) == All(modules)
    {
      var rest := modules[i + 1..];
      assert modules[i..][0] == modules[i] && modules[i..][1..] == rest;
      assert all + (modules[i].prefixes + All(rest)) == (all + modules[i].prefixes) + All(rest);
      all := all + modules[i].prefixes;
    }
    assert modules[|modules|..] == [] && all + [] == all;
  }

  method IsCovered(all: seq<string>, p: string) returns (covered: bool)
    ensures covered <==> Covered(all, p)
  {
    covered := false;
    for j := 0 to |all|
      invariant !covered && forall k :: 0 <= k < j ==> !(all[k] != p && Under(p, all[k]))
    {
      if all[j] != p && Under(p, all[j]) {
        return true;
      }
    }
  }

  /** Prefixes. */
  method Announced(modules: seq<Module>) returns (out: seq<string>)
    ensures out == Kept(All(modules), All(modules))
    ensures forall p :: p in out <==> p in All(modules) && !(exists q :: q in All(modules) && q != p && On(p, q))
  {
    var all := Flatten(modules);
    out := Uncovered(all);
    KeptOn(all);
  }

  /** Its second loop. */
  method Uncovered(all: seq<string>) returns (out: seq<string>)
    ensures out == Kept(all, all)
  {
    out := [];
    for i := 0 to |all|
      invariant out == Kept(all, all[..i])
    {
      assert all[..i + 1][..i] == all[..i];
      var covered := IsCovered(all, all[i]);
      if !covered {
        out := out + [all[i]];
      }
    }
    assert all[..|all|] == all;
  }

  lemma KeptOn(all: seq<string>)
    ensures forall p :: p in Kept(all, all) <==> p in all && !(exists q :: q in all && q != p && On(p, q))
  {
    NestingIsOn();
    forall p ensures Covered(all, p) <==> exists q :: q in all && q != p && On(p, q) {
      if q :| q in all && q != p && On(p, q) {
        var j :| 0 <= j < |all| && all[j] == q;
        assert all[j] != p && Under(p, all[j]);
      }
    }
  }

  /** Registration order is kept: the announced ones are the prefixes with some left out. */
  ghost predicate InOrder(out: seq<string>, ps: seq<string>)
    decreases |ps|
  {
    if out == [] then true
    else if ps == [] then false
    else if out[|out| - 1] == ps[|ps| - 1] then InOrder(out[..|out| - 1], ps[..|ps| - 1])
    else InOrder(out, ps[..|ps| - 1])
  }

  lemma {:induction false} KeptInOrder(all: seq<string>, ps: seq<string>)
    requires Distinct(ps)
    ensures InOrder(Kept(all, ps), ps) && Distinct(Kept(all, ps))
    decreases |ps|
  {
    if ps != [] {
      var n := |ps| - 1;
      var before := Kept(all, ps[..n]);
      KeptInOrder(all, ps[..n]);
      if Covered(all, ps[n]) {
        assert Kept(all, ps) == before;
        if before != [] {
          assert before[|before| - 1] in ps[..n];
        }
      } else {
        assert Kept(all, ps) == before + [ps[n]];
        assert (before + [ps[n]])[..|before|] == before;
        forall i | 0 <= i < |before| ensures before[i] != ps[n] {
          assert before[i] in ps[..n];
        }
      }
    }
  }

  /** Of the prefixes a path lies under, one is announced: the shortest. */
  lemma {:induction false} SomeKeptAbove(all: seq<string>, p: string) returns (q: string)
    requires p in all
    ensures q in Kept(all, all) && Under(p, q)
    decreases |p|
  {
    if Covered(all, p) {
      var j :| 0 <= j < |all| && all[j] != p && Under(p, all[j]);
      assert |all[j]| < |p| by {
        if |all[j]| == |p| {
          assert Under(all[j], p);
          UnderAntisymmetric(p, all[j]);
        }
      }
      q := SomeKeptAbove(all, all[j]);
      UnderTransitive(p, all[j], q);
    } else {
      q := p;
    }
  }

  /** The announced prefixes form a covering antichain: none lies under another, and every prefix of
      the process lies under exactly one of them. */
  lemma CoveringAntichain(all: seq<string>)
    ensures forall p, q :: p in Kept(all, all) && q in Kept(all, all) && On(p, q) ==> p == q
    ensures forall p :: p in all ==> exists q :: q in Kept(all, all) && On(p, q)
    ensures forall p, q, r :: p in all && q in Kept(all, all) && r in Kept(all, all) && On(p, q) && On(p, r) ==> q == r
  {
    KeptOn(all);
    forall p | p in all ensures exists q :: q in Kept(all, all) && On(p, q) {
      var q := SomeKeptAbove(all, p);
      UnderIsOn(p, q);
    }
    forall p, q, r | p in all && q in Kept(all, all) && r in Kept(all, all) && On(p, q) && On(p, r) ensures q == r {
      UnderIsOn(p, q);
      UnderIsOn(p, r);
      UnderIsOn(q, r);
      UnderIsOn(r, q);
      UnderChain(p, q, r);
    }
  }

  // ---------------------------------------------------------- the gateway's test

  /** Neither lies on the other. */
  predicate Apart(p: string, q: string) { !On(p, q) && !On(q, p) }

  /** checkRegister's test of the prefixes: no two of them overlap. */
  method NoOverlap(ps: seq<string>) returns (ok: bool)
    ensures ok <==> forall i, j :: 0 <= j < i < |ps| ==> Apart(ps[i], ps[j])
  {
    for i := 0 to |ps|
      invariant forall k, j :: 0 <= j < k < i ==> Apart(ps[k], ps[j])
    {
      for n := 0 to i
        invariant forall j :: 0 <= j < n ==> Apart(ps[i], ps[j])
      {
        UnderIsOn(ps[i], ps[n]);
        UnderIsOn(ps[n], ps[i]);
        if Under(ps[i], ps[n]) || Under(ps[n], ps[i]) {
          return false;
        }
      }
    }
    ok := true;
  }

  /** What Announced gives passes the gateway's test exactly when it repeats nothing; with the
      manifest New accepts, always. */
  lemma AnnouncedPasses(all: seq<string>)
    ensures
      var out := Kept(all, all);
      (forall i, j :: 0 <= j < i < |out| ==> Apart(out[i], out[j])) <==> Distinct(out)
    ensures Distinct(all) ==> Distinct(Kept(all, all))
  {
    var out := Kept(all, all);
    CoveringAntichain(all);
    assert forall i :: 0 <= i < |out| ==> out[i] in out;
    assert forall i, j :: 0 <= j < i < |out| && out[i] == out[j] ==> On(out[i], out[j]);
    if Distinct(all) {
      KeptInOrder(all, all);
    }
  }
}
