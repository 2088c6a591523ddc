/**
 The control-plane frame (lib/gateway/frame) at the level of the wire record: what json.Marshal
 and json.Unmarshal carry is taken as given, what Parse and Encode do with it is not.
 */
module Frames {
  import opened Options
  import opened Text

  const CALL := 2
  const CALL_RESULT := 3
  const CALL_ERROR := 4
  const MAX_SIZE := 65536

  datatype Frame = Frame(kind: int, id: string, action: string, payload: string, code: int, message: string)

  /** {t,u,a,p,c,m}; a string left out of the JSON is "". */
  datatype Wire = Wire(t: Option<int>, u: string, a: string, p: string, c: Option<int>, m: string)

  datatype Refusal = TooLarge | NotJson | NoType | BadId | NoAction | NoCode | BadType | NotObject
  datatype Parsed = Accepted(frame: Frame) | Refused(why: Refusal)

  predicate IsHex(c: char) { '0' <= c <= '9' || 'a' <= c <= 'f' || 'A' <= c <= 'F' }

  predicate IsUuid(s: string) {
    |s| == 36 && forall i :: 0 <= i < 36 ==> if i == 8 || i == 13 || i == 18 || i == 23 then s[i] == '-' else IsHex(s[i])
  }

  /** Parse: `w` is what the bytes unmarshal to, `size` how many there are. */
  function Parse(size: nat, w: Option<Wire>): Parsed {
    if size > MAX_SIZE then Refused(TooLarge)
    else if w.None? then Refused(NotJson)
    else if w.value.t.None? then Refused(NoType)
    else if !IsUuid(w.value.u) then Refused(BadId)
    else
      var wire, t := w.value, w.value.t.value;
      if t == CALL && !("/" <= wire.a) then Refused(NoAction)
      else if t == CALL_ERROR && wire.c.None? then Refused(NoCode)
      else if t != CALL && t != CALL_RESULT && t != CALL_ERROR then Refused(BadType)
      else
        var p := Trim(wire.p);
        var f := Frame(t, wire.u, wire.a, p, if t == CALL_ERROR then wire.c.value else 0, wire.m);
        if p == "" || p == "null" then Accepted(f.(payload := "{}"))
        else if p[0] == '{' then Accepted(f)
        else Refused(NotObject)
  }

  /** Encode: only what the type carries goes out. */
  function Encode(f: Frame): Option<Wire> {
    var w := Wire(Some(f.kind), f.id, "", "", None, "");
    if f.kind == CALL then Some(w.(a := f.action, p := if f.payload == "" then "{}" else f.payload))
    else if f.kind == CALL_RESULT then Some(w.(p := if f.payload == "" then "{}" else f.payload))
    else if f.kind == CALL_ERROR then Some(w.(c := Some(f.code), m := f.message))
    else None
  }

  /** A payload as json.Marshal writes an object. */
  predicate ObjectText(p: string) { p != "" && p[0] == '{' && Trim(p) == p }

  function NewCall(id: string, action: string, payload: string): Frame {
    Frame(CALL, id, action, payload, 0, "")
  }

  /** The answer to a call. */
  datatype Reply = Result(payload: string) | Error(code: int, message: string)

  function Answer(f: Frame, r: Reply): Frame {
    match r
    case Result(p) => Frame(CALL_RESULT, f.id, "", p, 0, "")
    case Error(c, m) => Frame(CALL_ERROR, f.id, "", "", c, m)
  }

  /** What a frame must be for the wire to carry all of it. */
  predicate Canonical(f: Frame) {
    && IsUuid(f.id)
    && match f.kind
       case 2 => "/" <= f.action && ObjectText(f.payload) && f.code == 0 && f.message == ""
       case 3 => f.action == "" && ObjectText(f.payload) && f.code == 0 && f.message == ""
       case 4 => f.action == "" && f.payload == "{}"
       case _ => false
  }

  lemma EmptyObject()
    ensures ObjectText("{}")
  {
    assert "{}"[..1] == "{";
  }

  /** The wire gives a frame back unchanged exactly when the frame is canonical. */
  lemma RoundTrip(f: Frame, size: nat)
    requires size <= MAX_SIZE
    ensures Parse(size, Encode(f)) == Accepted(f) <==> Canonical(f)
  {
    EmptyObject();
  }

  /** A frame built by NewCall with an action and an object payload, and an answer with an object
      payload, arrive; a CALLERROR arrives with "{}" where it had no payload. */
  lemma BuiltFramesArrive(id: string, action: string, payload: string, r: Reply, size: nat)
    requires size <= MAX_SIZE && IsUuid(id) && "/" <= action && ObjectText(payload)
    requires r.Result? ==> ObjectText(r.payload)
    ensures Parse(size, Encode(NewCall(id, action, payload))) == Accepted(NewCall(id, action, payload))
    ensures
      var a := Answer(NewCall(id, action, payload), r);
      Parse(size, Encode(a)) == Accepted(if r.Error? then a.(payload := "{}") else a)
  {
    RoundTrip(NewCall(id, action, payload), size);
    var a := Answer(NewCall(id, action, payload), r);
    if r.Result? {
      RoundTrip(a, size);
    } else {
      EmptyObject();
      RoundTrip(a.(payload := "{}"), size);
      assert Encode(a) == Encode(a.(payload := "{}"));
    }
  }

  /** Parse takes exactly the frames the control plane allows: not over 64 KiB, with a type of three and a
      UUID, an action when it is a call, a code when it is an error, and no payload but an object. */
  lemma ParsedIsAllowed(size: nat, w: Option<Wire>)
    ensures Parse(size, w).Accepted? <==>
      && size <= 64 * 1024 && w.Some? && w.value.t.Some? && w.value.t.value in {2, 3, 4} && IsUuid(w.value.u)
      && (w.value.t.value == 2 ==> "/" <= w.value.a) && (w.value.t.value == 4 ==> w.value.c.Some?)
      && (Trim(w.value.p) in {"", "null"} || Trim(w.value.p)[0] == '{')
    ensures Parse(size, w).Accepted? ==>
      var f := Parse(size, w).frame;
      f.kind == w.value.t.value && f.id == w.value.u && f.payload != "" && f.payload[0] == '{'
  {
  }
}
