/**
 The Idempotency-Key store (lib/rest/rest.go): answers of POSTs kept for a TTL and replayed. The hash
 of a body is taken to be injective, so a body stands for its hash; the clock does not run backwards;
 requests with one key do not overlap (Lookup and Store are two critical sections).
 */
module Idempotency {
  import opened Options

  datatype Stored = Stored(request: string, answer: Response, at: int)

  // ------------------------------------------------------------------- the map key

  const NUL := '\0'

  /** IdemScope, then Lookup's and Store's join: user NUL path NUL key. */
  function Joined(user: string, path: string, key: string): string {
    user + [NUL] + path + [NUL] + key
  }

  lemma FirstNul(a: string, x: string, b: string, y: string)
    requires NUL !in a && NUL !in b && a + [NUL] + x == b + [NUL] + y
    ensures a == b && x == y
  {
    var s, t := a + [NUL] + x, b + [NUL] + y;
    assert s[|a|] == NUL && t[|b|] == NUL;
    assert forall i :: 0 <= i < |a| ==> s[i] == a[i] && a[i] in a;
    assert forall i :: 0 <= i < |b| ==> t[i] == b[i] && b[i] in b;
    assert |a| == |b|;
    assert a == s[..|a|] && b == t[..|b|] && x == s[|a| + 1..] && y == t[|b| + 1..];
  }

  lemma LastNul(x: string, a: string, y: string, b: string)
    requires NUL !in a && NUL !in b && x + [NUL] + a == y + [NUL] + b
    ensures a == b && x == y
  {
    var s, t := x + [NUL] + a, y + [NUL] + b;
    assert s[|x|] == NUL && t[|y|] == NUL;
    assert forall i :: |x| < i < |s| ==> s[i] == a[i - |x| - 1] && a[i - |x| - 1] in a;
    assert forall i :: |y| < i < |t| ==> t[i] == b[i - |y| - 1] && b[i - |y| - 1] in b;
    assert |x| == |y|;
    assert x == s[..|x|] && y == t[..|y|] && a == s[|x| + 1..] && b == t[|y| + 1..];
  }

  /** The join is injective when user and key hold no NUL, whatever the path holds. */
  lemma JoinedInjective(u: string, p: string, k: string, u': string, p': string, k': string)
    requires NUL !in u && NUL !in u' && NUL !in k && NUL !in k'
    requires Joined(u, p, k) == Joined(u', p', k')
    ensures u == u' && p == p' && k == k'
  {
    assert Joined(u, p, k) == (u + [NUL] + p) + [NUL] + k;
    assert Joined(u', p', k') == (u' + [NUL] + p') + [NUL] + k';
    LastNul(u + [NUL] + p, k, u' + [NUL] + p', k');
    FirstNul(u, p, u', p');
  }

  /** A NUL in the user, or in the key, moves the seams. */
  lemma JoinedCollides(a: string, b: string, c: string, d: string)
    ensures Joined(a + [NUL] + b, c, d) == Joined(a, b + [NUL] + c, d)
    ensures Joined(a, b, c + [NUL] + d) == Joined(a, b + [NUL] + c, d)
  {
    assert Joined(a + [NUL] + b, c, d) == a + [NUL] + b + [NUL] + c + [NUL] + d == Joined(a, b + [NUL] + c, d);
    assert Joined(a, b, c + [NUL] + d) == a + [NUL] + b + [NUL] + c + [NUL] + d == Joined(a, b + [NUL] + c, d);
  }

  lemma {:induction false} CutAtFirst(s: string) returns (a: string, b: string)
    requires NUL in s
    ensures s == a + [NUL] + b && NUL !in a
  {
    if s[0] == NUL {
      a, b := "", s[1..];
    } else {
      a, b := CutAtFirst(s[1..]);
      a := [s[0]] + a;
    }
  }

  lemma {:induction false} CutAtLast(s: string) returns (a: string, b: string)
    requires NUL in s
    ensures s == a + [NUL] + b && NUL !in b
  {
    var n := |s| - 1;
    if s[n] == NUL {
      a, b := s[..n], "";
    } else {
      a, b := CutAtLast(s[..n]);
      b := b + [s[n]];
    }
  }

  /** The user has no NUL exactly when its join never meets another user's or another path's. */
  lemma UserNeedsNoNul(u: string)
    ensures NUL !in u <==> forall p, k, u', p', k' ::
      NUL !in k && NUL !in u' && NUL !in k' && Joined(u, p, k) == Joined(u', p', k') ==> u == u' && p == p'
  {
    if NUL in u {
      var a, b := CutAtFirst(u);
      JoinedCollides(a, b, "", "");
    } else {
      forall p, k, u', p', k' | NUL !in k && NUL !in u' && NUL !in k' && Joined(u, p, k) == Joined(u', p', k') ensures u == u' && p == p' {
        JoinedInjective(u, p, k, u', p', k');
      }
    }
  }

  /** The key has no NUL exactly when its join never meets another key's or another path's. */
  lemma KeyNeedsNoNul(k: string)
    ensures NUL !in k <==> forall u, p, u', p', k' ::
      NUL !in u && NUL !in u' && NUL !in k' && Joined(u, p, k) == Joined(u', p', k') ==> k == k' && p == p'
  {
    if NUL in k {
      var a, b := CutAtLast(k);
      JoinedCollides("", "", a, b);
    } else {
      forall u, p, u', p', k' | NUL !in u && NUL !in u' && NUL !in k' && Joined(u, p, k) == Joined(u', p', k') ensures k == k' && p == p' {
        JoinedInjective(u, p, k, u', p', k');
      }
    }
  }

  // --------------------------------------------------------------- what was captured

  type Headers = map<string, string>

  /** What a handler does to its ResponseWriter. */
  datatype Op = SetHeader(name: string, value: string) | DelHeader(name: string) | WriteHeader(code: int) | Write(bytes: string)

  datatype Response = Response(status: int, headers: Headers, body: string)

  function Bodies(ops: seq<Op>): string {
    if ops == [] then ""
    else
      var n := |ops| - 1;
      Bodies(ops[..n]) + if ops[n].Write? then ops[n].bytes else ""
  }

  /** A body is its writes, one after another. */
  lemma {:induction false} BodiesConcat(a: seq<Op>, b: seq<Op>)
    ensures Bodies(a + b) == Bodies(a) + Bodies(b)
    ensures forall x :: Bodies([Write(x)]) == x
    ensures forall op: Op :: !op.Write? ==> Bodies([op]) == ""
    decreases |b|
  {
    forall op: Op ensures Bodies([op]) == if op.Write? then op.bytes else "" {
      assert [op][..0] == [];
    }
    if b == [] {
      assert a + b == a;
    } else {
      var n := |b| - 1;
      assert (a + b)[..|a + b| - 1] == a + b[..n];
      BodiesConcat(a, b[..n]);
    }
  }

  /** The header map a handler leaves in its ResponseWriter. */
  function HeadersOf(ops: seq<Op>): Headers {
    if ops == [] then map[]
    else
      var n := |ops| - 1;
      Adjusted(HeadersOf(ops[..n]), ops[n])
  }

  function Adjusted(h: Headers, op: Op): Headers {
    match op
    case SetHeader(name, value) => h[name := value]
    case DelHeader(name) => h - {name}
    case _ => h
  }

  /** The codes net/http takes, and those that begin the answer: the others are informational. */
  predicate Valid(code: int) { 100 <= code <= 999 }
  predicate Begins(code: int) { code >= 200 || code == 101 }

  predicate Commits(op: Op) { op.Write? || (op.WriteHeader? && Begins(op.code)) }

  /** Status line and headers as they went out (net/http): with the first header written that is not
      informational, or with a write before any. */
  function Head(ops: seq<Op>): Option<(int, Headers)> {
    if ops == [] then None
    else
      var n := |ops| - 1;
      if Head(ops[..n]).Some? then Head(ops[..n])
      else if Commits(ops[n]) then Some((if ops[n].WriteHeader? then ops[n].code else 200, HeadersOf(ops[..n])))
      else None
  }

  /** The answer the client receives; a handler that begins none is answered 200 when it returns. */
  function Sent(ops: seq<Op>): Response {
    var head := if Head(ops).Some? then Head(ops).value else (200, HeadersOf(ops));
    Response(head.0, head.1, Bodies(ops))
  }

  predicate ValidCodes(ops: seq<Op>) { forall i :: 0 <= i < |ops| && ops[i].WriteHeader? ==> Valid(ops[i].code) }

  /** The status Capture has recorded: the last header's, 200 for a write before any, 0 for nothing. */
  function Recorded(ops: seq<Op>): int {
    if ops == [] then 0
    else
      var n := |ops| - 1;
      var before := Recorded(ops[..n]);
      match ops[n]
      case WriteHeader(code) => code
      case Write(_) => if before == 0 then 200 else before
      case _ => before
  }

  /** What Store keeps of a handler's answer. */
  function Captured(ops: seq<Op>): Response { Response(Recorded(ops), HeadersOf(ops), Bodies(ops)) }

  class Capture {
    var status: int
    var body: string
    /** The header map of the ResponseWriter underneath. */
    var headers: Headers

    constructor ()
      ensures status == 0 && body == "" && headers == map[]
    {
      status, body, headers := 0, "", map[];
    }

    method WriteHeader(code: int)
      modifies this
      ensures status == code && body == old(body) && headers == old(headers)
    {
      status := code;
    }

    method Write(b: string)
      modifies this
      ensures status == (if old(status) == 0 then 200 else old(status)) && body == old(body) + b && headers == old(headers)
    {
      if status == 0 {
        status := 200;
      }
      body := body + b;
    }

    /** do: the handler's writes, through the Capture. */
    method Run(ops: seq<Op>)
      requires status == 0 && body == "" && headers == map[]
      modifies this
      ensures Response(status, headers, body) == Captured(ops)
    {
      for i := 0 to |ops|
        invariant Response(status, headers, body) == Captured(ops[..i])
      {
        assert ops[..i + 1][..i] == ops[..i];
        match ops[i]
        case SetHeader(name, value) => headers := headers[name := value];
        case DelHeader(name) => headers := headers - {name};
        case WriteHeader(c) => WriteHeader(c);
        case Write(b) => Write(b);
      }
      assert ops[..|ops|] == ops;
    }
  }

  const REPLAYED := "Idempotency-Replayed"

  /** An answer marked as a replay. */
  function Marked(r: Response): Response { r.(headers := r.headers[REPLAYED := "true"]) }

  /** The answer's status after WriteHeader(code) and a write: an informational code is not it. */
  function Final(code: int): int { if Begins(code) then code else 200 }

  /** What a stored answer is replayed as; WriteHeader of no valid code is a panic in net/http. */
  function ReplayOf(s: Stored): Option<Response> {
    if Valid(s.answer.status) then Some(Marked(s.answer.(status := Final(s.answer.status)))) else None
  }

  /** Replay: the stored headers are copied one by one. */
  method Replay(s: Stored) returns (r: Option<Response>)
    ensures r == ReplayOf(s)
  {
    var headers: Headers := map[];
    var todo := s.answer.headers.Keys;
    while todo != {}
      invariant todo <= s.answer.headers.Keys && headers.Keys == s.answer.headers.Keys - todo
      invariant forall k :: k in headers ==> headers[k] == s.answer.headers[k]
      decreases todo
    {
      var k :| k in todo;
      headers := headers[k := s.answer.headers[k]];
      todo := todo - {k};
    }
    assert headers == s.answer.headers;
    headers := headers[REPLAYED := "true"];
    r := if Valid(s.answer.status) then Some(Response(Final(s.answer.status), headers, s.answer.body)) else None;
  }

  /** The code of the last header written, informational or not. */
  function LastCode(ops: seq<Op>): Option<int> {
    if ops == [] then None
    else if ops[|ops| - 1].WriteHeader? then Some(ops[|ops| - 1].code)
    else LastCode(ops[..|ops| - 1])
  }

  /** The handler wrote a header or a part of the body. */
  predicate Wrote(ops: seq<Op>) { exists i :: 0 <= i < |ops| && (ops[i].WriteHeader? || ops[i].Write?) }

  lemma WroteLast(ops: seq<Op>)
    requires ops != []
    ensures Wrote(ops) <==> Wrote(ops[..|ops| - 1]) || ops[|ops| - 1].WriteHeader? || ops[|ops| - 1].Write?
  {
    var n := |ops| - 1;
    if Wrote(ops[..n]) {
      var i :| 0 <= i < n && (ops[..n][i].WriteHeader? || ops[..n][i].Write?);
      assert ops[i] == ops[..n][i];
    }
    if i :| 0 <= i < n && (ops[i].WriteHeader? || ops[i].Write?) {
      assert ops[i] == ops[..n][i];
    }
  }

  lemma {:induction false} RecordedIsLastCode(ops: seq<Op>)
    requires ValidCodes(ops)
    ensures Recorded(ops) == if LastCode(ops).Some? then LastCode(ops).value else if Wrote(ops) then 200 else 0
    ensures LastCode(ops).Some? ==> Valid(LastCode(ops).value) && Wrote(ops)
    ensures LastCode(ops).None? && Head(ops).Some? ==> Head(ops).value.0 == 200
    decreases |ops|
  {
    if ops != [] {
      WroteLast(ops);
      RecordedIsLastCode(ops[..|ops| - 1]);
    }
  }

  function ValueOf(h: Headers, name: string): Option<string> { if name in h then Some(h[name]) else None }

  /** What the handler does to a header after its answer has begun: the last value it sets it to, or
      takes it away, if it touches it at all. */
  function Late(ops: seq<Op>, name: string): Option<Option<string>> {
    if ops == [] then None
    else
      var n := |ops| - 1;
      if Head(ops[..n]).None? then None
      else
        match ops[n]
        case SetHeader(k, v) => if k == name then Some(Some(v)) else Late(ops[..n], name)
        case DelHeader(k) => if k == name then Some(None) else Late(ops[..n], name)
        case _ => Late(ops[..n], name)
  }

  lemma {:induction false} LateValue(ops: seq<Op>, name: string)
    ensures ValueOf(HeadersOf(ops), name) == if Late(ops, name).Some? then Late(ops, name).value else ValueOf(Sent(ops).headers, name)
    ensures Head(ops).None? ==> Late(ops, name).None?
    decreases |ops|
  {
    if ops != [] {
      LateValue(ops[..|ops| - 1], name);
    }
  }

  predicate Touches(op: Op, name: string) { (op.SetHeader? || op.DelHeader?) && op.name == name }

  predicate TouchedLate(ops: seq<Op>, name: string) {
    exists i, j :: 0 <= i < j < |ops| && Commits(ops[i]) && Touches(ops[j], name)
  }

  lemma {:induction false} HeadCommits(ops: seq<Op>)
    ensures Head(ops).Some? <==> exists i :: 0 <= i < |ops| && Commits(ops[i])
    decreases |ops|
  {
    if ops != [] {
      var n := |ops| - 1;
      HeadCommits(ops[..n]);
      assert forall i :: 0 <= i < n ==> ops[..n][i] == ops[i];
      if Head(ops[..n]).Some? {
        var i :| 0 <= i < n && Commits(ops[..n][i]);
        assert Commits(ops[i]);
      }
    }
  }

  lemma TouchedLateLast(ops: seq<Op>, name: string)
    requires ops != []
    ensures var n := |ops| - 1;
      TouchedLate(ops, name) <==> TouchedLate(ops[..n], name) || (Touches(ops[n], name) && exists i :: 0 <= i < n && Commits(ops[..n][i]))
  {
    var n := |ops| - 1;
    assert forall i :: 0 <= i < n ==> ops[..n][i] == ops[i];
    if TouchedLate(ops[..n], name) {
      var i, j :| 0 <= i < j < n && Commits(ops[..n][i]) && Touches(ops[..n][j], name);
      assert Commits(ops[i]) && Touches(ops[j], name);
    }
    if i :| 0 <= i < n && Commits(ops[..n][i]) {
      assert Commits(ops[i]);
    }
    if i, j :| 0 <= i < j < |ops| && Commits(ops[i]) && Touches(ops[j], name) {
      assert Commits(ops[..n][i]);
      assert j < n ==> Touches(ops[..n][j], name);
    }
  }

  lemma {:induction false} LateIsTouchedLate(ops: seq<Op>, name: string)
    ensures Late(ops, name).Some? <==> TouchedLate(ops, name)
    decreases |ops|
  {
    if ops != [] {
      LateIsTouchedLate(ops[..|ops| - 1], name);
      HeadCommits(ops[..|ops| - 1]);
      TouchedLateLast(ops, name);
      LateValue(ops[..|ops| - 1], name);
    }
  }

  /** No header but the mark of a replay is touched late, or it is left as it was sent. */
  ghost predicate LateHarmless(ops: seq<Op>) {
    forall name :: name != REPLAYED && Late(ops, name).Some? ==> Late(ops, name).value == ValueOf(Sent(ops).headers, name)
  }

  lemma SameValues(a: Headers, b: Headers)
    requires forall name :: ValueOf(a, name) == ValueOf(b, name)
    ensures a == b
  {
    forall name ensures name in a <==> name in b {
      assert ValueOf(a, name) == ValueOf(b, name);
    }
    forall name | name in a ensures a[name] == b[name] {
      assert ValueOf(a, name) == ValueOf(b, name);
    }
  }

  /** The mark of a replay hides what the handler does to that one header, and nothing else. */
  lemma HeadersReplayed(ops: seq<Op>)
    ensures HeadersOf(ops)[REPLAYED := "true"] == Sent(ops).headers[REPLAYED := "true"] <==> LateHarmless(ops)
  {
    var a, b := HeadersOf(ops), Sent(ops).headers;
    var a', b' := a[REPLAYED := "true"], b[REPLAYED := "true"];
    forall name | name != REPLAYED
      ensures ValueOf(a', name) == ValueOf(b', name) <==>
              (Late(ops, name).Some? ==> Late(ops, name).value == ValueOf(b, name))
    {
      LateValue(ops, name);
      assert ValueOf(a', name) == ValueOf(a, name) && ValueOf(b', name) == ValueOf(b, name);
    }
    if LateHarmless(ops) {
      assert ValueOf(a', REPLAYED) == ValueOf(b', REPLAYED);
      SameValues(a', b');
    }
  }

  /** A handler that leaves its headers alone once its answer has begun is replayed with them. */
  lemma SettledHeadersStand(ops: seq<Op>)
    requires forall name :: name != REPLAYED ==> !TouchedLate(ops, name)
    ensures LateHarmless(ops)
  {
    forall name | name != REPLAYED ensures Late(ops, name).None? {
      LateIsTouchedLate(ops, name);
    }
  }

  /** A replay is the original answer, marked, exactly when the handler wrote something, the code of its
      last header, if any, gives the status that was sent, and what it did to its headers after its
      answer had begun left them as they were sent. */
  lemma ReplayIsTheAnswer(ops: seq<Op>)
    requires ValidCodes(ops)
    ensures forall request, at :: ReplayOf(Stored(request, Captured(ops), at)) == Some(Marked(Sent(ops))) <==>
      Wrote(ops) && (LastCode(ops).Some? ==> Final(LastCode(ops).value) == Sent(ops).status) && LateHarmless(ops)
  {
    RecordedIsLastCode(ops);
    HeadersReplayed(ops);
  }

  // ------------------------------------------------------------- the first-answer map

  /** One POST: who, where, under which key ("": none), with what body; when it looks and when it
      stores; and what its work would write. */
  datatype Post = Post(user: string, path: string, key: string, body: string, looks: int, stores: int, work: seq<Op>)

  datatype Outcome = Conflict | Replayed(answer: Stored) | Ran

  /** The 409 of a key used with another body; its own headers and text are not modelled. */
  const CONFLICT := Response(409, map[], "")

  function KeyOf(p: Post): string { Joined(p.user, p.path, p.key) }

  predicate Live(s: Stored, now: int, ttl: int) { now - s.at <= ttl }

  /** Lookup, on a map nothing is ever swept from. */
  function Looked(answers: map<string, Stored>, k: string, body: string, now: int, ttl: int): Outcome {
    if k !in answers || !Live(answers[k], now, ttl) then Ran
    else if answers[k].request != body then Conflict
    else Replayed(answers[k])
  }

  /** Once, on that map: the outcome, and the map after. */
  function Served(answers: map<string, Stored>, p: Post, ttl: int): (Outcome, map<string, Stored>) {
    if p.key == "" then (Ran, answers)
    else
      var o := Looked(answers, KeyOf(p), p.body, p.looks, ttl);
      if o.Ran? && Recorded(p.work) < 500
      then (o, answers[KeyOf(p) := Stored(p.body, Captured(p.work), p.stores)])
      else (o, answers)
  }

  // -------------------------------------------------------------------- the store

  class Store {
    const ttl: int
    var m: map<string, Stored>
    /** Everything ever stored, last per key; and the latest time seen. */
    ghost var answers: map<string, Stored>
    ghost var clock: int

    constructor (ttl: int, now: int)
      ensures Valid() && answers == map[] && clock == now && this.ttl == ttl
    {
      this.ttl, m, answers, clock := ttl, map[], map[], now;
    }

    /** The store is the unswept map but for entries that have expired. */
    ghost predicate Valid()
      reads this
    {
      && (forall k :: k in m ==> k in answers && m[k] == answers[k])
      && (forall k :: k in answers && k !in m ==> !Live(answers[k], clock, ttl))
    }

    /** Lookup: what the swept map answers is what the unswept one would. */
    method Lookup(k: string, body: string, now: int) returns (o: Outcome)
      requires Valid() && clock <= now
      modifies this`clock
      ensures Valid() && clock == now
      ensures o == Looked(answers, k, body, now, ttl)
    {
      clock := now;
      if k !in m || !(now - m[k].at <= ttl) {
        return Ran;
      }
      if m[k].request != body {
        return Conflict;
      }
      o := Replayed(m[k]);
    }

    /** The sweep of Store. */
    method Sweep(now: int)
      requires Valid() && clock <= now
      modifies this`m, this`clock
      ensures Valid() && clock == now
      ensures forall k :: k in m ==> Live(m[k], now, ttl)
    {
      var todo := m.Keys;
      clock := now;
      while todo != {}
        invariant Valid() && clock == now && todo <= m.Keys
        invariant forall k :: k in m && k !in todo ==> Live(m[k], now, ttl)
        decreases todo
      {
        var k :| k in todo;
        if now - m[k].at > ttl {
          m := m - {k};
        }
        todo := todo - {k};
      }
    }

    /** Store. */
    method Keep(k: string, body: string, answer: Response, now: int)
      requires Valid() && clock <= now
      modifies this
      ensures Valid() && clock == now
      ensures answers == old(answers)[k := Stored(body, answer, now)]
    {
      if |m| > 10000 {
        Sweep(now);
      }
      clock := now;
      m := m[k := Stored(body, answer, now)];
      answers := answers[k := Stored(body, answer, now)];
    }

    /** Once: the store's map moves as the first-answer map does, and the work runs exactly when
        that map has no live answer. */
    method Once(p: Post) returns (o: Outcome, response: Option<Response>)
      requires Valid() && clock <= p.looks <= p.stores
      modifies this
      ensures Valid() && clock <= p.stores
      ensures (o, answers) == Served(old(answers), p, ttl)
      ensures response == match o case Ran => Some(Sent(p.work)) case Replayed(s) => ReplayOf(s) case Conflict => Some(CONFLICT)
      ensures o.Conflict? ==> response.Some? && response.value.status == 409
      ensures o.Replayed? && response.Some? ==>
        var h := response.value.headers; "Idempotency-Replayed" in h && h["Idempotency-Replayed"] == "true"
    {
      if p.key == "" {
        return Ran, Some(Sent(p.work));
      }
      var scope := p.user + [NUL] + p.path;
      var k := scope + [NUL] + p.key;
      o := Lookup(k, p.body, p.looks);
      match o {
        case Conflict => response := Some(CONFLICT);
        case Replayed(s) => response := Replay(s);
        case Ran =>
          var c := new Capture();
          c.Run(p.work);
          if c.status < 500 {
            Keep(k, p.body, Response(c.status, c.headers, c.body), p.stores);
          }
          response := Some(Sent(p.work));
      }
    }

    /** POSTs one after another: the store goes as the first-answer map does, outcome by outcome. */
    method Serve(ps: seq<Post>) returns (outs: seq<Outcome>)
      requires Valid() && InTurn(ps, clock)
      modifies this
      ensures Valid()
      ensures answers == After(old(answers), ps, ttl) && outs == Outcomes(old(answers), ps, ttl)
    {
      outs := [];
      assert ps[0..] == ps;
      for i := 0 to |ps|
        invariant Valid() && InTurn(ps[i..], clock)
        invariant After(answers, ps[i..], ttl) == After(old(answers), ps, ttl)
        invariant outs + Outcomes(answers, ps[i..], ttl) == Outcomes(old(answers), ps, ttl)
      {
        assert ps[i..][0] == ps[i] && ps[i..][1..] == ps[i + 1..];
        var o, _ := Once(ps[i]);
        InTurnLater(ps[i + 1..], clock, ps[i].stores);
        Regroup(outs, o, Outcomes(answers, ps[i + 1..], ttl));
        outs := outs + [o];
      }
      assert ps[|ps|..] == [];
    }
  }

  // ------------------------------------------------------------------ over any run

  function After(answers: map<string, Stored>, ps: seq<Post>, ttl: int): map<string, Stored>
    decreases |ps|
  {
    if ps == [] then answers else After(Served(answers, ps[0], ttl).1, ps[1..], ttl)
  }

  function Outcomes(answers: map<string, Stored>, ps: seq<Post>, ttl: int): (outs: seq<Outcome>)
    ensures |outs| == |ps|
    decreases |ps|
  {
    if ps == [] then []
    else
      var (o, next) := Served(answers, ps[0], ttl);
      [o] + Outcomes(next, ps[1..], ttl)
  }

  lemma Regroup(outs: seq<Outcome>, o: Outcome, rest: seq<Outcome>)
    ensures outs + ([o] + rest) == (outs + [o]) + rest
  {
  }

  /** Requests that do not overlap: each looks when the one before has stored. */
  predicate InTurn(ps: seq<Post>, clock: int)
    decreases |ps|
  {
    ps == [] || (clock <= ps[0].looks <= ps[0].stores && InTurn(ps[1..], ps[0].stores))
  }

  lemma InTurnLater(ps: seq<Post>, early: int, late: int)
    requires InTurn(ps, late) && early <= late
    ensures InTurn(ps, early)
  {
  }

  /** While an answer is live no request runs the work of its key again or changes it: the answer
      stands, whatever requests come between. */
  lemma {:induction false} LiveAnswerStands(answers: map<string, Stored>, k: string, ps: seq<Post>, ttl: int)
    requires k in answers
    requires forall i :: 0 <= i < |ps| ==> Live(answers[k], ps[i].looks, ttl)
    ensures k in After(answers, ps, ttl) && After(answers, ps, ttl)[k] == answers[k]
    decreases |ps|
  {
    if ps != [] {
      var next := Served(answers, ps[0], ttl).1;
      assert next[k] == answers[k];
      LiveAnswerStands(next, k, ps[1..], ttl);
    }
  }

  lemma Answered(answers: map<string, Stored>, p: Post, kept: Stored, ttl: int)
    requires p.key != "" && KeyOf(p) in answers && answers[KeyOf(p)] == kept && Live(kept, p.looks, ttl)
    ensures Served(answers, p, ttl) == (if p.body == kept.request then Replayed(kept) else Conflict, answers)
  {
  }

  /** At most once: after a POST ran its work and was answered below 500, every later POST of the
      same user, path and key inside the TTL is answered without running: with the same status and
      body for the same request body, with a conflict for another. */
  lemma AtMostOnce(answers: map<string, Stored>, first: Post, between: seq<Post>, again: Post, ttl: int)
    requires first.key != "" && Served(answers, first, ttl).0.Ran? && Recorded(first.work) < 500
    requires again.user == first.user && again.path == first.path && again.key == first.key
    requires again.looks - first.stores <= ttl
    requires forall i :: 0 <= i < |between| ==> between[i].looks <= again.looks
    ensures
      var s := Served(After(Served(answers, first, ttl).1, between, ttl), again, ttl);
      && s.0 == (if again.body == first.body
                 then Replayed(Stored(first.body, Captured(first.work), first.stores)) else Conflict)
      && s.1 == After(Served(answers, first, ttl).1, between, ttl)
  {
    var k, kept := KeyOf(first), Stored(first.body, Captured(first.work), first.stores);
    var stored := Served(answers, first, ttl).1;
    assert k in stored && stored[k] == kept;
    LiveAnswerStands(stored, k, between, ttl);
    Answered(After(stored, between, ttl), again, kept, ttl);
  }

  /** A POST under another user, path or key is not affected by what was stored under this one. */
  lemma OthersUnaffected(answers: map<string, Stored>, p: Post, q: Post, ttl: int)
    requires NUL !in p.user && NUL !in p.key && NUL !in q.user && NUL !in q.key
    requires (p.user, p.path, p.key) != (q.user, q.path, q.key)
    ensures Served(Served(answers, p, ttl).1, q, ttl).0 == Served(answers, q, ttl).0
  {
    if KeyOf(p) == KeyOf(q) {
      JoinedInjective(p.user, p.path, p.key, q.user, q.path, q.key);
    }
  }

  lemma {:induction false} RunSplits(answers: map<string, Stored>, ps: seq<Post>, i: nat, ttl: int)
    requires i < |ps|
    ensures Outcomes(answers, ps, ttl)[i] == Served(After(answers, ps[..i], ttl), ps[i], ttl).0
    decreases |ps|
  {
    if i > 0 {
      var next := Served(answers, ps[0], ttl).1;
      RunSplits(next, ps[1..], i - 1, ttl);
      assert ps[..i][0] == ps[0] && ps[..i][1..] == ps[1..][..i - 1];
    } else {
      assert ps[..0] == [];
    }
  }

  lemma {:induction false} AfterConcat(answers: map<string, Stored>, a: seq<Post>, b: seq<Post>, ttl: int)
    ensures After(answers, a + b, ttl) == After(After(answers, a, ttl), b, ttl)
    decreases |a|
  {
    if a == [] {
      assert a + b == b;
    } else {
      assert (a + b)[1..] == a[1..] + b;
      AfterConcat(Served(answers, a[0], ttl).1, a[1..], b, ttl);
    }
  }

  lemma {:induction false} InTurnLooks(ps: seq<Post>, clock: int, i: nat, j: nat)
    requires InTurn(ps, clock) && i <= j < |ps|
    ensures clock <= ps[i].looks <= ps[j].looks && (i < j ==> ps[i].stores <= ps[j].looks)
    decreases |ps|
  {
    if i > 0 {
      InTurnLooks(ps[1..], ps[0].stores, i - 1, j - 1);
    } else if j > 0 {
      InTurnLooks(ps[1..], ps[0].stores, 0, j - 1);
    }
  }

  /** At most once in any run of the store: when the i-th POST ran its work and was answered below 500, no
      later one of its user, path and key inside the TTL runs. */
  lemma AtMostOnceInRun(answers: map<string, Stored>, ps: seq<Post>, clock: int, i: nat, j: nat, ttl: int)
    requires InTurn(ps, clock) && i < j < |ps|
    requires ps[i].key != "" && Outcomes(answers, ps, ttl)[i].Ran? && Recorded(ps[i].work) < 500
    requires ps[j].user == ps[i].user && ps[j].path == ps[i].path && ps[j].key == ps[i].key
    requires ps[j].looks - ps[i].stores <= ttl
    ensures Outcomes(answers, ps, ttl)[j] ==
      if ps[j].body == ps[i].body then Replayed(Stored(ps[i].body, Captured(ps[i].work), ps[i].stores)) else Conflict
  {
    var a, between := ps[..i], ps[i + 1..j];
    RunSplits(answers, ps, i, ttl);
    RunSplits(answers, ps, j, ttl);
    assert ps[..j] == a + ([ps[i]] + between);
    AfterConcat(answers, a, [ps[i]] + between, ttl);
    assert ([ps[i]] + between)[1..] == between;
    forall k | 0 <= k < |between| ensures between[k].looks <= ps[j].looks {
      InTurnLooks(ps, clock, i + 1 + k, j);
    }
    AtMostOnce(After(answers, a, ttl), ps[i], between, ps[j], ttl);
  }

  /** In a run from the empty store, the i-th request ran its work and left an answer that is kept under k. */
  predicate Left(ps: seq<Post>, outs: seq<Outcome>, i: int, k: string)
    requires |outs| == |ps|
  {
    0 <= i < |ps| && ps[i].key != "" && outs[i].Ran? && Recorded(ps[i].work) < 500 && KeyOf(ps[i]) == k
  }

  /** The map after n requests holds what some of them left, and nothing older than what any of them left. */
  ghost predicate Accounted(ps: seq<Post>, outs: seq<Outcome>, n: nat, m: map<string, Stored>)
    requires |outs| == |ps|
  {
    && (forall k :: k in m ==> exists i :: i < n && Left(ps, outs, i, k) && m[k].at == ps[i].stores)
    && (forall i, k :: i < n && Left(ps, outs, i, k) ==> k in m && m[k].at >= ps[i].stores)
  }

  lemma {:induction false} InTurnStores(ps: seq<Post>, clock: int, i: nat)
    requires InTurn(ps, clock) && i < |ps|
    ensures ps[i].looks <= ps[i].stores
    decreases |ps|
  {
    if i > 0 {
      InTurnStores(ps[1..], ps[0].stores, i - 1);
    }
  }

  lemma AccountedNext(ps: seq<Post>, outs: seq<Outcome>, n: nat, m: map<string, Stored>, clock: int, ttl: int)
    requires |outs| == |ps| && n < |ps| && InTurn(ps, clock) && Accounted(ps, outs, n, m)
    requires outs[n] == Served(m, ps[n], ttl).0
    ensures Accounted(ps, outs, n + 1, Served(m, ps[n], ttl).1)
  {
    var m', key := Served(m, ps[n], ttl).1, KeyOf(ps[n]);
    forall k | k in m' ensures exists i :: i < n + 1 && Left(ps, outs, i, k) && m'[k].at == ps[i].stores {
      if Left(ps, outs, n, k) {
        assert m'[k].at == ps[n].stores;
      } else {
        assert k in m && m'[k] == m[k];
        var i :| i < n && Left(ps, outs, i, k) && m[k].at == ps[i].stores;
      }
    }
    forall i, k | i < n + 1 && Left(ps, outs, i, k) ensures k in m' && m'[k].at >= ps[i].stores {
      InTurnStores(ps, clock, n);
      if i < n {
        InTurnLooks(ps, clock, i, n);
      }
    }
  }

  lemma {:induction false} RunAccounted(ps: seq<Post>, clock: int, n: nat, ttl: int)
    requires InTurn(ps, clock) && n <= |ps|
    ensures Accounted(ps, Outcomes(map[], ps, ttl), n, After(map[], ps[..n], ttl))
  {
    if n > 0 {
      RunAccounted(ps, clock, n - 1, ttl);
      RunSplits(map[], ps, n - 1, ttl);
      var last := [ps[n - 1]];
      assert ps[..n] == ps[..n - 1] + last && last[1..] == [];
      AfterConcat(map[], ps[..n - 1], last, ttl);
      var before := After(map[], ps[..n - 1], ttl);
      assert After(before, last, ttl) == After(Served(before, ps[n - 1], ttl).1, [], ttl);
      AccountedNext(ps, Outcomes(map[], ps, ttl), n - 1, before, clock, ttl);
    } else {
      assert ps[..0] == [];
    }
  }

  /** Users and keys hold no NUL. */
  predicate NulFree(ps: seq<Post>) { forall i :: 0 <= i < |ps| ==> NUL !in ps[i].user && NUL !in ps[i].key }

  /** The work of a request runs exactly when it has no key, or no earlier one of its user, path and key ran,
      was answered below 500, and stored its answer within the TTL: the retry of a 5xx reaches the
      database, an expired answer is forgotten, and a request without a key leaves nothing. */
  lemma RunsExactlyWhen(ps: seq<Post>, clock: int, j: nat, ttl: int)
    requires InTurn(ps, clock) && NulFree(ps) && j < |ps|
    ensures Outcomes(map[], ps, ttl)[j].Ran? <==>
      ps[j].key == "" ||
      !(exists i :: 0 <= i < j && ps[i].user == ps[j].user && ps[i].path == ps[j].path && ps[i].key == ps[j].key
          && Outcomes(map[], ps, ttl)[i].Ran? && Recorded(ps[i].work) < 500 && ps[j].looks - ps[i].stores <= ttl)
  {
    var outs, m, k := Outcomes(map[], ps, ttl), After(map[], ps[..j], ttl), KeyOf(ps[j]);
    RunSplits(map[], ps, j, ttl);
    RunAccounted(ps, clock, j, ttl);
    if ps[j].key != "" {
      if i :| 0 <= i < j && ps[i].user == ps[j].user && ps[i].path == ps[j].path && ps[i].key == ps[j].key
              && outs[i].Ran? && Recorded(ps[i].work) < 500 && ps[j].looks - ps[i].stores <= ttl {
        assert Left(ps, outs, i, k);
        assert Live(m[k], ps[j].looks, ttl);
      }
      if !outs[j].Ran? {
        var i :| i < j && Left(ps, outs, i, k) && m[k].at == ps[i].stores;
        JoinedInjective(ps[i].user, ps[i].path, ps[i].key, ps[j].user, ps[j].path, ps[j].key);
      }
    }
  }
}
