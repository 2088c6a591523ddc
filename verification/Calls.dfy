/**
 Calls and their answers on one socket (lib/gatewayclient/session.go): any number of goroutines in
 `call`, each with a one-slot channel, one reader, and a gateway that may answer late, twice, out of
 order or out of thin air. A step is one critical section of the session's mutex or one channel
 operation. Ids are fresh: NewID's 122 random bits are taken not to collide.
 */
module Calls {
  import opened Options
  import opened Frames

  type Chan = nat

  /** A frame that came in, and the call it answers when the gateway made it as an answer: the
      index, among the frames sent, of the one it parsed. */
  datatype Packet = Packet(frame: Frame, about: Option<nat>)

  datatype Phase = Sending | Waiting | Expired | Got(packet: Packet) | Failed | TimedOut

  datatype Call = Call(id: string, action: string, payload: string, phase: Phase)

  datatype Reader = Reading | Delivering(ch: Chan, packet: Packet)

  /** History: which call made each id, `sent` with the call each frame was sent by, and how many
      frames each channel was given. */
  datatype State = State(
    calls: map<Chan, Call>, pending: map<string, Chan>, slot: map<Chan, Option<Packet>>, reader: Reader,
    owner: map<string, Chan>, sent: seq<Wire>, asker: seq<Chan>, given: map<Chan, nat>)

  const INIT := State(map[], map[], map[], Reading, map[], [], [], map[])

  datatype Event =
    | Start(ch: Chan, id: string, action: string, payload: string)  // register in pending
    | Send(ch: Chan, ok: bool)
    | Arrive(frame: Frame)                                         // any answer frame off the wire
    | Reply(k: nat, reply: Frames.Reply, size: nat)                // the gateway answers sent[k]
    | Deliver                                                      // ch <- f
    | Take(ch: Chan)                                               // r := <-ch
    | Expire(ch: Chan)                                             // time.After
    | Forget(ch: Chan)                                             // delete(pending, id)
    | SocketDone(ch: Chan)                                         // <-s.done

  predicate InPhase(s: State, ch: Chan, p: Phase) { ch in s.calls && s.calls[ch].phase == p }

  /** What the reader parses when the gateway parses sent frame k and answers it. */
  function Answered(s: State, k: nat, r: Frames.Reply, size: nat): Option<Frame>
    requires k < |s.sent|
  {
    match Parse(0, Some(s.sent[k]))
    case Refused(_) => None
    case Accepted(f) =>
      match Parse(size, Encode(Answer(f, r)))
      case Refused(_) => None
      case Accepted(a) => Some(a)
  }

  /** What `call` hands to NewCall: a fresh UUID, an action, and an object marshalled as JSON. */
  predicate Sound(id: string, action: string, payload: string) {
    IsUuid(id) && "/" <= action && ObjectText(payload)
  }

  predicate Enabled(s: State, e: Event) {
    match e
    case Start(ch, id, action, payload) =>
      ch !in s.calls && id !in s.owner && Sound(id, action, payload)
    case Send(ch, _) => InPhase(s, ch, Sending)
    case Arrive(f) => s.reader.Reading?
    case Reply(k, r, size) => s.reader.Reading? && k < |s.sent| && Answered(s, k, r, size).Some?
    case Deliver => s.reader.Delivering? && s.reader.ch in s.slot && s.slot[s.reader.ch].None?
    case Take(ch) => InPhase(s, ch, Waiting) && ch in s.slot && s.slot[ch].Some?
    case Expire(ch) => InPhase(s, ch, Waiting)
    case Forget(ch) => InPhase(s, ch, Expired)
    case SocketDone(ch) => InPhase(s, ch, Waiting)
  }

  /** reader: the channel waiting for the frame's id is taken out of the table, if there is one. */
  function Dispatched(s: State, p: Packet): State {
    if p.frame.kind in {CALL_RESULT, CALL_ERROR} && p.frame.id in s.pending
    then s.(pending := s.pending - {p.frame.id}, reader := Delivering(s.pending[p.frame.id], p))
    else s
  }

  function Moved(s: State, ch: Chan, p: Phase): State
    requires ch in s.calls
  {
    s.(calls := s.calls[ch := s.calls[ch].(phase := p)])
  }

  function Started(s: State, ch: Chan, c: Call): State {
    s.(calls := s.calls[ch := c], pending := s.pending[c.id := ch], owner := s.owner[c.id := ch],
       slot := s.slot[ch := None], given := s.given[ch := 0])
  }

  /** The frame a call puts on the wire. */
  function Question(c: Call): Wire {
    Encode(NewCall(c.id, c.action, c.payload)).value
  }

  function Asked(s: State, ch: Chan): State
    requires ch in s.calls
  {
    Moved(s, ch, Waiting).(sent := s.sent + [Question(s.calls[ch])], asker := s.asker + [ch])
  }

  function Handed(s: State): State
    requires s.reader.Delivering?
  {
    var ch := s.reader.ch;
    s.(slot := s.slot[ch := Some(s.reader.packet)], reader := Reading,
       given := s.given[ch := (if ch in s.given then s.given[ch] else 0) + 1])
  }

  function Taken(s: State, ch: Chan): State
    requires ch in s.calls && ch in s.slot && s.slot[ch].Some?
  {
    Moved(s, ch, Got(s.slot[ch].value)).(slot := s.slot[ch := None])
  }

  function Forgotten(s: State, ch: Chan): State
    requires ch in s.calls
  {
    Moved(s, ch, TimedOut).(pending := s.pending - {s.calls[ch].id})
  }

  function Next(s: State, e: Event): State
    requires Enabled(s, e)
  {
    match e
    case Start(ch, id, action, payload) => Started(s, ch, Call(id, action, payload, Sending))
    case Send(ch, ok) => if ok then Asked(s, ch) else Moved(s, ch, Failed)
    case Arrive(f) => Dispatched(s, Packet(f, None))
    case Reply(k, r, size) => Dispatched(s, Packet(Answered(s, k, r, size).value, Some(k)))
    case Deliver => Handed(s)
    case Take(ch) => Taken(s, ch)
    case Expire(ch) => Moved(s, ch, Expired)
    case Forget(ch) => Forgotten(s, ch)
    case SocketDone(ch) => Moved(s, ch, Failed)
  }

  function Play(s: State, es: seq<Event>): Option<State>
    decreases |es|
  {
    if es == [] then Some(s)
    else if Enabled(s, es[0]) then Play(Next(s, es[0]), es[1..])
    else None
  }

  // ------------------------------------------------------------------- invariants

  /** The packet belongs to the call on ch: its id, and its own question when it is an answer. */
  ghost predicate Belongs(s: State, ch: Chan, p: Packet) {
    && ch in s.calls && p.frame.id == s.calls[ch].id
    && (p.about.Some? ==> p.about.value < |s.asker| && s.asker[p.about.value] == ch)
  }

  /** The channel has been given nothing. */
  predicate Untouched(s: State, ch: Chan) {
    ch in s.slot && s.slot[ch].None? && ch in s.given && s.given[ch] == 0
  }

  /** The tables: an id names one call, and a call still in the pending table was given nothing. */
  ghost predicate Tables(s: State) {
    && s.slot.Keys == s.calls.Keys && s.given.Keys == s.calls.Keys
    && (forall ch :: ch in s.calls ==> s.calls[ch].id in s.owner && s.owner[s.calls[ch].id] == ch)
    && (forall id :: id in s.pending ==>
          s.pending[id] in s.calls && s.calls[s.pending[id]].id == id && Untouched(s, s.pending[id]))
    && (forall ch :: ch in s.given ==> s.given[ch] <= 1)
  }

  /** What was sent is what the calls asked. */
  ghost predicate Questions(s: State) {
    && |s.sent| == |s.asker|
    && (forall ch :: ch in s.calls ==> Sound(s.calls[ch].id, s.calls[ch].action, s.calls[ch].payload))
    && (forall k :: 0 <= k < |s.asker| ==> s.asker[k] in s.calls && s.sent[k] == Question(s.calls[s.asker[k]]))
  }

  /** Where a packet is, it belongs. */
  ghost predicate Deliveries(s: State) {
    && (s.reader.Delivering? ==>
          && Belongs(s, s.reader.ch, s.reader.packet) && Untouched(s, s.reader.ch)
          && s.reader.packet.frame.id !in s.pending)
    && (forall ch :: ch in s.slot && s.slot[ch].Some? ==> Belongs(s, ch, s.slot[ch].value) && ch in s.given && s.given[ch] == 1)
    && (forall ch :: ch in s.calls && s.calls[ch].phase.Got? ==> Belongs(s, ch, s.calls[ch].phase.packet))
  }

  /** A call that waits and was given nothing, with nothing on its way, is still in the pending table; one
      that timed out is not. */
  ghost predicate Expected(s: State) {
    forall ch :: ch in s.calls ==>
      && ((s.calls[ch].phase.Sending? || s.calls[ch].phase.Waiting?) && Untold(s, ch)
          ==> s.calls[ch].id in s.pending && s.pending[s.calls[ch].id] == ch)
      && (s.calls[ch].phase.TimedOut? ==> s.calls[ch].id !in s.pending)
  }

  predicate Untold(s: State, ch: Chan) {
    ch in s.given && s.given[ch] == 0 && !(s.reader.Delivering? && s.reader.ch == ch)
  }

  ghost predicate Inv(s: State) { Tables(s) && Questions(s) && Deliveries(s) && Expected(s) }

  /** An answer the gateway makes carries the id of the frame it parsed. */
  lemma AnsweredId(s: State, k: nat, r: Frames.Reply, size: nat)
    requires Questions(s) && k < |s.sent| && Answered(s, k, r, size).Some?
    ensures s.asker[k] in s.calls && Answered(s, k, r, size).value.id == s.calls[s.asker[k]].id
  {
    var c := s.calls[s.asker[k]];
    BuiltFramesArrive(c.id, c.action, c.payload, Error(0, ""), 0);
  }

  ghost predicate AnswerTo(s: State, p: Packet)
    requires p.about.Some?
  {
    p.about.value < |s.asker| && s.asker[p.about.value] in s.calls && s.calls[s.asker[p.about.value]].id == p.frame.id
  }

  lemma StartTables(s: State, ch: Chan, c: Call)
    requires Tables(s) && ch !in s.calls && c.id !in s.owner && Sound(c.id, c.action, c.payload) && c.phase.Sending?
    ensures Tables(Started(s, ch, c))
  {
  }

  lemma StartQuestions(s: State, ch: Chan, c: Call)
    requires Questions(s) && ch !in s.calls && c.id !in s.owner && Sound(c.id, c.action, c.payload) && c.phase.Sending?
    ensures Questions(Started(s, ch, c))
  {
  }

  lemma StartDeliveries(s: State, ch: Chan, c: Call)
    requires Tables(s) && Deliveries(s) && ch !in s.calls && c.id !in s.owner && Sound(c.id, c.action, c.payload) && c.phase.Sending?
    ensures Deliveries(Started(s, ch, c))
  {
  }

  lemma MoveTables(s: State, ch: Chan, p: Phase)
    requires Tables(s) && ch in s.calls && !p.Got?
    ensures Tables(Moved(s, ch, p))
  {
  }

  lemma MoveQuestions(s: State, ch: Chan, p: Phase)
    requires Questions(s) && ch in s.calls && !p.Got?
    ensures Questions(Moved(s, ch, p))
  {
  }

  lemma MoveDeliveries(s: State, ch: Chan, p: Phase)
    requires Tables(s) && Deliveries(s) && ch in s.calls && !p.Got?
    ensures Deliveries(Moved(s, ch, p))
  {
  }

  lemma AskTables(s: State, ch: Chan)
    requires Tables(s) && ch in s.calls
    ensures Tables(Asked(s, ch))
  {
  }

  lemma AskQuestions(s: State, ch: Chan)
    requires Questions(s) && ch in s.calls
    ensures Questions(Asked(s, ch))
  {
  }

  lemma AskDeliveries(s: State, ch: Chan)
    requires Tables(s) && Deliveries(s) && ch in s.calls
    ensures Deliveries(Asked(s, ch))
  {
  }

  lemma HandTables(s: State)
    requires Tables(s) && Deliveries(s) && s.reader.Delivering?
    ensures Tables(Handed(s))
  {
  }

  lemma HandQuestions(s: State)
    requires Questions(s) && s.reader.Delivering?
    ensures Questions(Handed(s))
  {
  }

  lemma HandDeliveries(s: State)
    requires Tables(s) && Deliveries(s) && s.reader.Delivering?
    ensures Deliveries(Handed(s))
  {
  }

  lemma TakeTables(s: State, ch: Chan)
    requires Tables(s) && Deliveries(s) && ch in s.calls && ch in s.slot && s.slot[ch].Some?
    ensures Tables(Taken(s, ch))
  {
  }

  lemma TakeQuestions(s: State, ch: Chan)
    requires Questions(s) && ch in s.calls && ch in s.slot && s.slot[ch].Some?
    ensures Questions(Taken(s, ch))
  {
  }

  lemma TakeDeliveries(s: State, ch: Chan)
    requires Tables(s) && Deliveries(s) && ch in s.calls && ch in s.slot && s.slot[ch].Some?
    ensures Deliveries(Taken(s, ch))
  {
  }

  lemma ForgetTables(s: State, ch: Chan)
    requires Tables(s) && ch in s.calls
    ensures Tables(Forgotten(s, ch))
  {
  }

  lemma ForgetQuestions(s: State, ch: Chan)
    requires Questions(s) && ch in s.calls
    ensures Questions(Forgotten(s, ch))
  {
  }

  lemma ForgetDeliveries(s: State, ch: Chan)
    requires Tables(s) && Deliveries(s) && ch in s.calls
    ensures Deliveries(Forgotten(s, ch))
  {
  }

  lemma DispatchTables(s: State, p: Packet)
    requires Tables(s) && s.reader.Reading? && (p.about.Some? ==> AnswerTo(s, p))
    ensures Tables(Dispatched(s, p))
  {
  }

  lemma DispatchQuestions(s: State, p: Packet)
    requires Questions(s) && s.reader.Reading? && (p.about.Some? ==> AnswerTo(s, p))
    ensures Questions(Dispatched(s, p))
  {
  }

  lemma DispatchDeliveries(s: State, p: Packet)
    requires Tables(s) && Deliveries(s) && s.reader.Reading? && (p.about.Some? ==> AnswerTo(s, p))
    ensures Deliveries(Dispatched(s, p))
  {
  }

  lemma StartExpected(s: State, ch: Chan, c: Call)
    requires Tables(s) && Expected(s) && ch !in s.calls && c.id !in s.owner && c.phase.Sending?
    ensures Expected(Started(s, ch, c))
  {
  }

  lemma MoveExpected(s: State, ch: Chan, p: Phase)
    requires Tables(s) && Expected(s) && ch in s.calls && (p.Failed? || p.Expired?)
    ensures Expected(Moved(s, ch, p))
  {
  }

  lemma AskExpected(s: State, ch: Chan)
    requires Tables(s) && Expected(s) && InPhase(s, ch, Sending)
    ensures Expected(Asked(s, ch))
  {
  }

  lemma HandExpected(s: State)
    requires Tables(s) && Deliveries(s) && Expected(s) && s.reader.Delivering?
    ensures Expected(Handed(s))
  {
  }

  lemma TakeExpected(s: State, ch: Chan)
    requires Tables(s) && Deliveries(s) && Expected(s) && ch in s.calls && ch in s.slot && s.slot[ch].Some?
    ensures Expected(Taken(s, ch))
  {
  }

  lemma ForgetExpected(s: State, ch: Chan)
    requires Tables(s) && Expected(s) && ch in s.calls
    ensures Expected(Forgotten(s, ch))
  {
  }

  lemma DispatchExpected(s: State, p: Packet)
    requires Tables(s) && Expected(s) && s.reader.Reading?
    ensures Expected(Dispatched(s, p))
  {
  }

  lemma ExpectedStep(s: State, e: Event)
    requires Inv(s) && Enabled(s, e)
    ensures Expected(Next(s, e))
  {
    match e
    case Start(ch, id, action, payload) => StartExpected(s, ch, Call(id, action, payload, Sending));
    case Send(ch, ok) => if ok { AskExpected(s, ch); } else { MoveExpected(s, ch, Failed); }
    case Arrive(f) => DispatchExpected(s, Packet(f, None));
    case Reply(k, r, size) => DispatchExpected(s, Packet(Answered(s, k, r, size).value, Some(k)));
    case Deliver => HandExpected(s);
    case Take(ch) => TakeExpected(s, ch);
    case Expire(ch) => MoveExpected(s, ch, Expired);
    case Forget(ch) => ForgetExpected(s, ch);
    case SocketDone(ch) => MoveExpected(s, ch, Failed);
  }

  lemma Step(s: State, e: Event)
    requires Inv(s) && Enabled(s, e)
    ensures Inv(Next(s, e))
  {
    ExpectedStep(s, e);
    match e
    case Start(ch, id, action, payload) =>
      var call := Call(id, action, payload, Sending);
      StartTables(s, ch, call); StartQuestions(s, ch, call); StartDeliveries(s, ch, call);
    case Send(ch, ok) =>
      if ok {
        AskTables(s, ch); AskQuestions(s, ch); AskDeliveries(s, ch);
      } else {
        MoveTables(s, ch, Failed); MoveQuestions(s, ch, Failed); MoveDeliveries(s, ch, Failed);
      }
    case Arrive(f) =>
      DispatchTables(s, Packet(f, None)); DispatchQuestions(s, Packet(f, None)); DispatchDeliveries(s, Packet(f, None));
    case Reply(k, r, size) =>
      AnsweredId(s, k, r, size);
      var p := Packet(Answered(s, k, r, size).value, Some(k));
      DispatchTables(s, p); DispatchQuestions(s, p); DispatchDeliveries(s, p);
    case Deliver =>
      HandTables(s); HandQuestions(s); HandDeliveries(s);
    case Take(ch) =>
      TakeTables(s, ch); TakeQuestions(s, ch); TakeDeliveries(s, ch);
    case Expire(ch) =>
      MoveTables(s, ch, Expired); MoveQuestions(s, ch, Expired); MoveDeliveries(s, ch, Expired);
    case Forget(ch) =>
      ForgetTables(s, ch); ForgetQuestions(s, ch); ForgetDeliveries(s, ch);
    case SocketDone(ch) =>
      MoveTables(s, ch, Failed); MoveQuestions(s, ch, Failed); MoveDeliveries(s, ch, Failed);
  }

  lemma {:induction false} Always(s: State, es: seq<Event>)
    requires Inv(s) && Play(s, es).Some?
    ensures Inv(Play(s, es).value)
    decreases |es|
  {
    if es != [] {
      Step(s, es[0]);
      Always(Next(s, es[0]), es[1..]);
    }
  }

  // --------------------------------------------------------------------- theorems

  /** The reader never blocks on a channel: whenever it has a frame to hand over, the slot is empty. */
  lemma ReaderNeverBlocks(es: seq<Event>, s: State)
    requires Play(INIT, es) == Some(s) && s.reader.Delivering?
    ensures Enabled(s, Deliver)
  {
    Always(INIT, es);
  }

  /** No channel is given two frames, however often an id is answered. */
  lemma AtMostOneFrame(es: seq<Event>, s: State, ch: Chan)
    requires Play(INIT, es) == Some(s) && ch in s.calls
    ensures ch in s.given && s.given[ch] <= 1
  {
    Always(INIT, es);
  }

  /** A call returns only a frame with its own id; and when the frame is an answer the gateway made
      to a frame it parsed, that frame was this call's. */
  lemma AnswerReachesItsCall(es: seq<Event>, s: State, ch: Chan)
    requires Play(INIT, es) == Some(s) && ch in s.calls && s.calls[ch].phase.Got?
    ensures
      var p := s.calls[ch].phase.packet;
      && p.frame.id == s.calls[ch].id
      && (p.about.Some? ==> p.about.value < |s.asker| && s.asker[p.about.value] == ch)
  {
    Always(INIT, es);
  }

  /** What reaches a caller of an answer the gateway makes to its question. */
  function Arrived(c: Call, r: Frames.Reply): Frame {
    match r
    case Result(payload) => Frame(3, c.id, "", payload, 0, "")
    case Error(code, message) => Frame(4, c.id, "", "{}", code, message)
  }

  lemma AnswerParses(s: State, k: nat, r: Frames.Reply, size: nat)
    requires Questions(s) && k < |s.sent| && size <= 65536 && (r.Result? ==> ObjectText(r.payload))
    ensures s.asker[k] in s.calls && Answered(s, k, r, size) == Some(Arrived(s.calls[s.asker[k]], r))
  {
    var c := s.calls[s.asker[k]];
    BuiltFramesArrive(c.id, c.action, c.payload, r, 0);
    BuiltFramesArrive(c.id, c.action, c.payload, r, size);
  }

  lemma PlayThree(s: State, a: Event, b: Event, c: Event)
    requires Enabled(s, a) && Enabled(Next(s, a), b) && Enabled(Next(Next(s, a), b), c)
    ensures Play(s, [a, b, c]) == Some(Next(Next(Next(s, a), b), c))
  {
    assert [a, b, c][1..] == [b, c] && [b, c][1..] == [c] && [c][1..] == [];
    assert Play(Next(Next(Next(s, a), b), c), []) == Some(Next(Next(Next(s, a), b), c));
    assert Play(Next(Next(s, a), b), [c]) == Play(Next(Next(Next(s, a), b), c), []);
    assert Play(Next(s, a), [b, c]) == Play(Next(Next(s, a), b), [c]);
  }

  /** The reader takes the answer for the call that waits. */
  lemma AnswerDispatched(s: State, ch: Chan, k: nat, r: Frames.Reply, size: nat)
    requires Inv(s) && s.reader.Reading? && InPhase(s, ch, Waiting) && ch in s.given && s.given[ch] == 0
    requires k < |s.asker| && s.asker[k] == ch && size <= 65536 && (r.Result? ==> ObjectText(r.payload))
    ensures Enabled(s, Reply(k, r, size))
    ensures
      var p := Packet(Arrived(s.calls[ch], r), Some(k));
      Next(s, Reply(k, r, size)) == s.(pending := s.pending - {p.frame.id}, reader := Delivering(ch, p))
    ensures ch in s.slot && s.slot[ch].None?
  {
    AnswerParses(s, k, r, size);
    assert Untold(s, ch);
  }

  /** What is on its way to a waiting call is returned by it. */
  lemma DeliveredAndTaken(s: State, ch: Chan, p: Packet)
    requires s.reader == Delivering(ch, p) && InPhase(s, ch, Waiting) && ch in s.slot && s.slot[ch].None?
    ensures Enabled(s, Deliver) && Enabled(Next(s, Deliver), Take(ch))
    ensures ch in Next(Next(s, Deliver), Take(ch)).calls
    ensures Next(Next(s, Deliver), Take(ch)).calls[ch] == s.calls[ch].(phase := Got(p))
  {
  }

  /** An answer is not lost: in every reachable state in which the reader reads, a call waits and has been
      given nothing, and the gateway answers its question, with a result or with an error, that answer is
      handed to the call and returned by it. */
  lemma AnswerIsDelivered(es: seq<Event>, s: State, ch: Chan, k: nat, r: Frames.Reply, size: nat)
    requires Play(INIT, es) == Some(s) && s.reader.Reading?
    requires InPhase(s, ch, Waiting) && ch in s.given && s.given[ch] == 0
    requires k < |s.asker| && s.asker[k] == ch
    requires size <= 65536 && (r.Result? ==> ObjectText(r.payload))
    ensures
      var t := Play(s, [Reply(k, r, size), Deliver, Take(ch)]);
      && t.Some? && ch in t.value.calls
      && t.value.calls[ch] == s.calls[ch].(phase := Got(Packet(Arrived(s.calls[ch], r), Some(k))))
  {
    Always(INIT, es);
    AnswerDispatched(s, ch, k, r, size);
    DeliveredAndTaken(Next(s, Reply(k, r, size)), ch, Packet(Arrived(s.calls[ch], r), Some(k)));
    PlayThree(s, Reply(k, r, size), Deliver, Take(ch));
  }

  /** A call that timed out leaves nothing behind in the pending table. */
  lemma TimedOutIsForgotten(es: seq<Event>, s: State, ch: Chan)
    requires Play(INIT, es) == Some(s) && InPhase(s, ch, TimedOut)
    ensures s.calls[ch].id !in s.pending
  {
    Always(INIT, es);
  }
}
