/**
 How the gateway client tells the gateway its state (lib/gatewayclient).

 The goroutines of client.go, session.go and load.go are one step system over the fields they
 share: any number of `Load.Add` callers, the watcher on the one-slot wake channel, any number of
 `SetOverloaded` callers, the goroutine of `Run` with its registrations and its drain, and
 `/reload` commands. A step is one access to shared state: an atomic operation, a critical
 section of `mu`, the taking of `statusMu`, one write. An event sequence is an interleaving.
 */
module StatusProtocol {
  import opened Options

  type Sid = nat

  /** What /status says. */
  datatype Word = Ready | Overloaded | Draining

  /** What State() says. */
  datatype Instance = Offline | Connecting | IsReady | IsOverloaded | IsDraining

  /** Who runs syncStatus. */
  datatype Owner = Watcher | Registrar | Caller(id: nat)

  /** syncStatus between taking statusMu and giving it back. */
  datatype Turn = Locked | HasRead(want: Word, current: bool) | Calling(want: Word) | SaidIt(want: Word)

  datatype Lock = Free | Held(owner: Owner, sid: Sid, turn: Turn) | HeldByDrain(sid: Sid)

  /** One socket lifetime. History: `entered`, whether its registration has written `said`; `heard`,
      every /status attempted on it; and three marks, each set where the code goes wrong.
      `lost`: the registration wrote `said` over an overloaded already told, and nothing was told since.
      `misordered`: the first word told was ready, or a word was told while `lost`.
      `misstated`: the last to write State() was the registration after an overloaded had been said, or
      a turn whose word the registration had written over. */
  datatype Session = Session(
    said: Option<Word>, draining: bool, entered: bool, heard: seq<Word>, lost: bool, misordered: bool, misstated: bool)

  /** Where the goroutine of Run is. */
  datatype Main =
    | Down
    | Dialing
    | Published(sid: Sid)   // c.active set, said not yet
    | Entered(sid: Sid)     // said set, state not yet
    | Announced(sid: Sid)   // state set, syncStatus not yet called
    | Syncing(sid: Sid)
    | Poking(sid: Sid)
    | Looping(sid: Sid)
    | DrainLocked(sid: Sid)
    | DrainStated(sid: Sid)
    | DrainFlagged(sid: Sid)
    | DrainCalled(sid: Sid)
    | Drained(sid: Sid)
    | Ending

  /** Where the watcher is. */
  datatype Watch = Idle | Woken | GotCapacity(capacity: int) | Setting | Telling

  /** An Add between its count change and its return. */
  datatype Adding = Counted(n: int) | MustPoke

  /** load.go: the counter, the wake slot, the watcher and the Adds in progress. `stale`: /reload
      has changed the capacity and no registration has poked since. `flips` and `moved` are
      history: flips of the watcher's flag, and the total change made by Add. */
  datatype Counter = Counter(
    n: int, capacity: int, wake: bool, watch: Watch, on: bool, adds: map<nat, Adding>,
    stale: bool, reloaded: bool, flips: nat, moved: nat)

  /** client.go and session.go. History: /status calls attempted other than draining,
      registrations, and calls of SetOverloaded made by others than the watcher. */
  datatype Link = Link(
    overloaded: bool, state: Instance, active: Option<Sid>, sessions: map<Sid, Session>, nextSid: nat,
    waiting: map<Owner, Sid>, lock: Lock, main: Main, spoken: nat, registrations: nat, calls: nat)

  datatype State = State(load: Counter, link: Link)

  function Init(capacity: int): State {
    State(Counter(0, capacity, false, Idle, false, map[], false, false, 0, 0),
          Link(false, Offline, None, map[], 0, map[], Free, Down, 0, 0, 0))
  }

  datatype LoadEvent =
    | AddCount(id: nat, d: int) | AddCompare(id: nat) | AddPoke(id: nat)
    | Wake | ReadCapacity | Judge | Reload(capacity: int)

  datatype SyncEvent =
    | CallSetOverloaded(id: nat, value: bool)
    | TakeTurn(owner: Owner) | ReadFlag | Decide | Return | Finish

  datatype RunEvent =
    | Dial | DialFails | Publish | Enter | SetReady | StartSync | RegistrationPokes | SocketEnds
    | DrainLock | DrainState | DrainFlag | DrainCall | DrainUnlock | DrainEnds | RunReturns

  datatype Event = OnLoad(load: LoadEvent) | SetFlag | OnSync(sync: SyncEvent) | OnRun(run: RunEvent)

  function Max(a: int, b: int): int { if a < b then b else a }
  function Abs(a: int): nat { if a < 0 then -a else a }

  /** The gap between the two marks. */
  function Gap(capacity: int): int { Max(1, capacity / 4) }

  /** low: the count at which an overloaded instance is ready again. */
  function Low(capacity: int): int { capacity - Gap(capacity) }

  function WordOf(overloaded: bool): Word { if overloaded then Overloaded else Ready }

  function InstanceOf(w: Word): Instance {
    match w case Ready => IsReady case Overloaded => IsOverloaded case Draining => IsDraining
  }

  predicate AtMark(n: int, capacity: int) { n >= capacity || n <= Low(capacity) }

  // ------------------------------------------------------------------ the steps

  predicate LoadEnabled(c: Counter, e: LoadEvent) {
    match e
    case AddCount(id, _) => id !in c.adds
    case AddCompare(id) => id in c.adds && c.adds[id].Counted?
    case AddPoke(id) => id in c.adds && c.adds[id].MustPoke?
    case Wake => c.watch.Idle? && c.wake
    case ReadCapacity => c.watch.Woken?
    case Judge => c.watch.GotCapacity?
    case Reload(_) => true
  }

  /** Add, poke, the watcher's reads and verdict (load.go), and the capacity store of /reload. */
  function LoadNext(c: Counter, e: LoadEvent): Counter
    requires LoadEnabled(c, e)
  {
    match e
    case AddCount(id, d) =>
      c.(n := c.n + d, adds := c.adds[id := Counted(c.n + d)], moved := c.moved + Abs(d))
    case AddCompare(id) =>
      if AtMark(c.adds[id].n, c.capacity) then c.(adds := c.adds[id := MustPoke]) else c.(adds := c.adds - {id})
    case AddPoke(id) => c.(wake := true, adds := c.adds - {id})
    case Wake => c.(wake := false, watch := Woken)
    case ReadCapacity => c.(watch := GotCapacity(c.capacity))
    case Judge =>
      var capacity := c.watch.capacity;
      if !c.on && c.n >= capacity then c.(on := true, flips := c.flips + 1, watch := Setting)
      else if c.on && c.n <= Low(capacity) then c.(on := false, flips := c.flips + 1, watch := Setting)
      else c.(watch := Idle)
    case Reload(capacity) =>
      if capacity == c.capacity then c else c.(capacity := capacity, stale := true, reloaded := true)
  }

  predicate SyncEnabled(l: Link, e: SyncEvent) {
    match e
    case CallSetOverloaded(id, _) => !Busy(l, Caller(id))
    case TakeTurn(o) => l.lock.Free? && o in l.waiting
    case ReadFlag => l.lock.Held? && l.lock.turn.Locked?
    case Decide => l.lock.Held? && l.lock.turn.HasRead? && l.lock.sid in l.sessions
    case Return => l.lock.Held? && l.lock.turn.Calling? && l.lock.sid in l.sessions
    case Finish => l.lock.Held? && l.lock.turn.SaidIt? && l.lock.sid in l.sessions
  }

  /** The owner is inside syncStatus. */
  predicate Busy(l: Link, o: Owner) {
    o in l.waiting || (l.lock.Held? && l.lock.owner == o)
  }

  /** The flag is not to be told: another session is live, this one drains, or it was said. */
  predicate NothingToSay(l: Link)
    requires SyncEnabled(l, Decide)
  {
    var x := l.sessions[l.lock.sid];
    !l.lock.turn.current || x.draining || x.said == Some(l.lock.turn.want)
  }

  /** The step gives statusMu back. */
  predicate Releases(l: Link, e: SyncEvent)
    requires SyncEnabled(l, e)
  {
    e.Finish? || (e.Decide? && NothingToSay(l))
  }

  function Released(l: Link): Link
    requires l.lock.Held?
  {
    l.(lock := Free, main := if l.lock.owner.Registrar? && l.main.Syncing? then Poking(l.main.sid) else l.main)
  }

  /** The session after a turn attempts /status w. */
  function Told(x: Session, w: Word): Session {
    x.(heard := x.heard + [w], lost := false, misordered := x.misordered || x.lost || (x.said.None? && w.Ready?))
  }

  /** A turn on the session has its /status under way; or it has yet to write State(). */
  predicate InFlight(k: Lock, i: Sid) { TurnOn(k, i) && k.turn.Calling? }
  predicate Unwritten(k: Lock, i: Sid) { TurnOn(k, i) && (k.turn.Calling? || k.turn.SaidIt?) }
  predicate TurnOn(k: Lock, i: Sid) { k.Held? && k.sid == i }

  /** SetOverloaded and syncStatus (client.go). */
  function SyncNext(l: Link, e: SyncEvent): Link
    requires SyncEnabled(l, e)
  {
    match e
    case CallSetOverloaded(id, v) =>
      l.(overloaded := v, calls := l.calls + 1,
         waiting := if l.active.None? then l.waiting else l.waiting[Caller(id) := l.active.value])
    case TakeTurn(o) => l.(lock := Held(o, l.waiting[o], Locked), waiting := l.waiting - {o})
    case ReadFlag =>
      l.(lock := l.lock.(turn := HasRead(WordOf(l.overloaded), l.active == Some(l.lock.sid))))
    case Decide =>
      if NothingToSay(l) then Released(l)
      else
        var sid, x, w := l.lock.sid, l.sessions[l.lock.sid], l.lock.turn.want;
        l.(lock := l.lock.(turn := Calling(w)), spoken := l.spoken + 1,
           sessions := l.sessions[sid := Told(x, w)])
    case Return =>
      var sid, w := l.lock.sid, l.lock.turn.want;
      l.(lock := l.lock.(turn := SaidIt(w)), sessions := l.sessions[sid := l.sessions[sid].(said := Some(w))])
    case Finish =>
      var sid := l.lock.sid;
      Released(if l.active != Some(sid) then l
               else l.(state := InstanceOf(l.lock.turn.want),
                       sessions := l.sessions[sid := l.sessions[sid].(misstated := l.sessions[sid].lost)]))
  }

  predicate RunEnabled(l: Link, e: RunEvent) {
    match e
    case Dial => l.main.Down?
    case DialFails => l.main.Dialing?
    case Publish => l.main.Dialing?
    case Enter => l.main.Published? && l.main.sid in l.sessions
    case SetReady => l.main.Entered? && l.main.sid in l.sessions
    case StartSync => l.main.Announced?
    case RegistrationPokes => l.main.Poking?
    case SocketEnds => l.main.Looping?
    case DrainLock => l.main.Looping? && l.lock.Free?
    case DrainState => l.main.DrainLocked?
    case DrainFlag => l.main.DrainStated? && l.main.sid in l.sessions
    case DrainCall => l.main.DrainFlagged? && l.main.sid in l.sessions
    case DrainUnlock => l.main.DrainCalled?
    case DrainEnds => l.main.Drained?
    case RunReturns => l.main.Ending?
  }

  /** Run, runSession and drain (client.go, session.go). */
  function RunNext(l: Link, e: RunEvent): Link
    requires RunEnabled(l, e)
  {
    match e
    case Dial => l.(main := Dialing, state := Connecting)
    case DialFails => l.(main := Down, state := Offline)
    case Publish =>
      l.(main := Published(l.nextSid), active := Some(l.nextSid), nextSid := l.nextSid + 1,
         sessions := l.sessions[l.nextSid := Session(None, false, false, [], false, false, false)],
         registrations := l.registrations + 1)
    case Enter =>
      var sid, x := l.main.sid, l.sessions[l.main.sid];
      l.(main := Entered(sid), sessions := l.sessions[sid := x.(said := Some(Ready), entered := true,
           lost := x.said == Some(Overloaded) && !InFlight(l.lock, sid))])
    case SetReady =>
      var sid, x := l.main.sid, l.sessions[l.main.sid];
      l.(main := Announced(sid), state := IsReady, sessions := l.sessions[sid := x.(
           misstated := x.said == Some(Overloaded) && !Unwritten(l.lock, sid))])
    case StartSync => l.(main := Syncing(l.main.sid), waiting := l.waiting[Registrar := l.main.sid])
    case RegistrationPokes => l.(main := Looping(l.main.sid))
    case SocketEnds => l.(main := Ending, active := None)
    case DrainLock => l.(main := DrainLocked(l.main.sid), lock := HeldByDrain(l.main.sid))
    case DrainState => l.(main := DrainStated(l.main.sid), state := IsDraining)
    case DrainFlag =>
      var sid := l.main.sid;
      l.(main := DrainFlagged(sid), sessions := l.sessions[sid := l.sessions[sid].(draining := true)])
    case DrainCall =>
      var sid, x := l.main.sid, l.sessions[l.main.sid];
      l.(main := DrainCalled(sid), sessions := l.sessions[sid := x.(heard := x.heard + [Draining])])
    case DrainUnlock => l.(main := Drained(l.main.sid), lock := Free)
    case DrainEnds => l.(main := Ending, active := None)
    case RunReturns => l.(main := Down, state := Offline)
  }

  predicate Enabled(s: State, e: Event) {
    match e
    case OnLoad(le) => LoadEnabled(s.load, le)
    case SetFlag => s.load.watch.Setting?
    case OnSync(se) => SyncEnabled(s.link, se)
    case OnRun(re) => RunEnabled(s.link, re)
  }

  function Next(s: State, e: Event): State
    requires Enabled(s, e)
  {
    match e
    case OnLoad(le) => s.(load := LoadNext(s.load, le))
    case SetFlag => State(s.load.(watch := if s.link.active.None? then Idle else Telling), FlagSet(s.link, s.load.on))
    case OnSync(se) =>
      State(if Releases(s.link, se) && s.link.lock.owner.Watcher? then s.load.(watch := Idle) else s.load,
            SyncNext(s.link, se))
    case OnRun(re) =>
      State(if re.RegistrationPokes? then s.load.(wake := true, stale := false) else s.load, RunNext(s.link, re))
  }

  /** SetOverloaded as the watcher calls it. */
  function FlagSet(l: Link, on: bool): Link {
    l.(overloaded := on, waiting := if l.active.None? then l.waiting else l.waiting[Watcher := l.active.value])
  }

  /** The state after an interleaving, if it is one. */
  function Play(s: State, es: seq<Event>): Option<State>
    decreases |es|
  {
    if es == [] then Some(s)
    else if Enabled(s, es[0]) then Play(Next(s, es[0]), es[1..])
    else None
  }

  // ------------------------------------------------------------ the load counter

  /** The count asks for another flag than the watcher has. */
  predicate Unsettled(n: int, capacity: int, on: bool) {
    (n >= capacity && !on) || (n <= Low(capacity) && on)
  }

  /** A poke for the current count is on its way. */
  ghost predicate PokeOwed(c: Counter) {
    exists id :: id in c.adds && (c.adds[id] == MustPoke || c.adds[id] == Counted(c.n))
  }

  /** What every step keeps of the counter: a count past a mark the flag does not reflect is about
      to be looked at, by the watcher or by an Add that owes a poke. */
  ghost predicate WakeInv(c: Counter) {
    && (!c.stale && Unsettled(c.n, c.capacity, c.on) ==> c.wake || c.watch.Woken? || c.watch.GotCapacity? || PokeOwed(c))
    && (c.watch.GotCapacity? && c.watch.capacity != c.capacity ==> c.stale || c.wake)
  }

  lemma WakeStep(c: Counter, e: LoadEvent)
    requires WakeInv(c) && LoadEnabled(c, e)
    ensures WakeInv(LoadNext(c, e))
  {
    var c' := LoadNext(c, e);
    match e
    case AddCount(id, d) => assert c'.adds[id] == Counted(c'.n);
    case AddCompare(id) =>
      if AtMark(c.adds[id].n, c.capacity) {
        assert c'.adds[id] == MustPoke;
      } else if PokeOwed(c) && Unsettled(c.n, c.capacity, c.on) {
        var k :| k in c.adds && (c.adds[k] == MustPoke || c.adds[k] == Counted(c.n));
        assert k in c'.adds && c'.adds[k] == c.adds[k];
      }
    case Wake => assert PokeOwed(c) ==> PokeOwed(c');
    case ReadCapacity =>
    case Judge => assert PokeOwed(c) ==> PokeOwed(c');
    case _ =>
  }

  /** Hovering at the capacity is paid for: each flip costs a gap's worth of change. */
  ghost predicate CostInv(c: Counter) {
    !c.reloaded ==>
      && c.capacity >= 1
      && (c.watch.GotCapacity? ==> c.watch.capacity == c.capacity)
      && c.flips * Gap(c.capacity) + Due(c) <= c.moved
  }

  /** What the flag's distance from its next flip adds to the flips already paid for. */
  function Due(c: Counter): int { Max(0, if c.on then c.capacity - c.n else c.n - Low(c.capacity)) }

  /** A flip turns a gap's worth of distance into one more flip. */
  lemma CostJudge(c: Counter)
    requires CostInv(c) && LoadEnabled(c, Judge)
    ensures CostInv(LoadNext(c, Judge))
  {
    var g, c' := Gap(c.capacity), LoadNext(c, Judge);
    assert (c.flips + 1) * g == c.flips * g + g;
    if c'.flips != c.flips && !c.reloaded {
      assert Due(c) >= g && Due(c') == 0;
    }
  }

  lemma CostStep(c: Counter, e: LoadEvent)
    requires CostInv(c) && LoadEnabled(c, e)
    ensures CostInv(LoadNext(c, e))
  {
    var c' := LoadNext(c, e);
    if e.Judge? {
      CostJudge(c);
    } else if !c'.reloaded {
      assert c'.flips == c.flips && c'.capacity == c.capacity && c'.on == c.on;
      assert Due(c') - Due(c) <= c'.moved - c.moved;
    }
  }

  // ------------------------------------------------------- the shape of the link

  /** The session Run's goroutine has published and not yet ended. */
  function Serving(m: Main): Option<Sid> {
    match m
    case Down => None
    case Dialing => None
    case Ending => None
    case _ => Some(m.sid)
  }

  predicate DrainHolds(m: Main) { m.DrainLocked? || m.DrainStated? || m.DrainFlagged? || m.DrainCalled? }
  predicate NotDraining(m: Main) { !DrainHolds(m) && !m.Drained? }
  predicate DrainMarked(m: Main) { m.DrainFlagged? || m.DrainCalled? || m.Drained? }
  predicate DrainSent(m: Main) { m.DrainCalled? || m.Drained? }

  /** The last /status attempted was draining. */
  predicate ToldDraining(heard: seq<Word>) { heard != [] && heard[|heard| - 1] == Draining }

  ghost predicate Shape(l: Link) {
    && l.active == Serving(l.main)
    && (forall i :: i in l.sessions ==> i < l.nextSid)
    && (forall o :: o in l.waiting ==> l.waiting[o] in l.sessions)
    && (l.lock.Held? ==> l.lock.sid in l.sessions && l.lock.owner !in l.waiting)
    && (l.lock.Held? && !l.lock.turn.Locked? ==> l.lock.turn.want != Draining)
    && (l.lock.HeldByDrain? <==> DrainHolds(l.main))
    && (Busy(l, Registrar) <==> l.main.Syncing?)
    && (l.active.Some? ==> l.active.value in l.sessions && LiveShape(l, l.active.value, l.sessions[l.active.value]))
  }

  ghost predicate LiveShape(l: Link, m: Sid, x: Session) {
    && (x.entered <==> !l.main.Published?)
    && (x.draining <==> DrainMarked(l.main))
    && (ToldDraining(x.heard) <==> DrainSent(l.main))
    && (TurnOn(l.lock, m) && l.lock.turn.HasRead? ==> l.lock.turn.current)
    && (Unwritten(l.lock, m) ==> NotDraining(l.main))
  }

  lemma ShapeQueue(l: Link, e: SyncEvent)
    requires Shape(l) && SyncEnabled(l, e)
    requires e.CallSetOverloaded? || e.TakeTurn? || e.ReadFlag?
    ensures Shape(SyncNext(l, e))
  {
  }

  lemma ShapeDecide(l: Link)
    requires Shape(l) && SyncEnabled(l, Decide)
    ensures Shape(SyncNext(l, Decide))
  {
  }

  lemma ShapeTurn(l: Link, e: SyncEvent)
    requires Shape(l) && SyncEnabled(l, e)
    requires e.Return? || e.Finish?
    ensures Shape(SyncNext(l, e))
  {
  }

  lemma ShapeSync(l: Link, e: SyncEvent)
    requires Shape(l) && SyncEnabled(l, e)
    ensures Shape(SyncNext(l, e))
  {
    match e
    case Decide => ShapeDecide(l);
    case Return => ShapeTurn(l, e);
    case Finish => ShapeTurn(l, e);
    case _ => ShapeQueue(l, e);
  }

  lemma ShapeFlag(l: Link, on: bool)
    requires Shape(l)
    requires !Busy(l, Watcher)
    ensures Shape(FlagSet(l, on))
  {
  }

  lemma ShapeRegister(l: Link, e: RunEvent)
    requires Shape(l) && RunEnabled(l, e)
    requires e.Dial? || e.DialFails? || e.Publish? || e.Enter? || e.SetReady? || e.StartSync?
    ensures Shape(RunNext(l, e))
  {
  }

  lemma ShapeDrain(l: Link, e: RunEvent)
    requires Shape(l) && RunEnabled(l, e)
    requires !(e.Dial? || e.DialFails? || e.Publish? || e.Enter? || e.SetReady? || e.StartSync?)
    ensures Shape(RunNext(l, e))
  {
  }

  lemma ShapeRun(l: Link, e: RunEvent)
    requires Shape(l) && RunEnabled(l, e)
    ensures Shape(RunNext(l, e))
  {
    if e.Dial? || e.DialFails? || e.Publish? || e.Enter? || e.SetReady? || e.StartSync? {
      ShapeRegister(l, e);
    } else {
      ShapeDrain(l, e);
    }
  }

  // ------------------------------------------------------------- what was announced

  /** Overloaded and ready in turn, overloaded first. */
  predicate Alternates(h: seq<Word>) {
    forall k :: 0 <= k < |h| ==> h[k] == if k % 2 == 0 then Overloaded else Ready
  }

  /** A session's announcements but for the closing draining. */
  function Voiced(h: seq<Word>): seq<Word> {
    if ToldDraining(h) then h[..|h| - 1] else h
  }

  /** What the gateway was last told; a registration enters ready. */
  function Heard(h: seq<Word>): Word { if h == [] then Ready else h[|h| - 1] }

  /** Draining comes once, and last. */
  predicate DrainingLast(h: seq<Word>) { forall k :: 0 <= k < |h| - 1 ==> h[k] != Draining }

  /** What `said` will be when the turn on the session is over. */
  function Saying(k: Lock, i: Sid, x: Session): Option<Word> {
    if InFlight(k, i) then Some(k.turn.want) else x.said
  }

  /** What the client believes it has told, by the words told and the mark. */
  function Believed(x: Session): Option<Word> {
    if x.lost then Some(Ready) else if x.entered || x.heard != [] then Some(Heard(Voiced(x.heard))) else None
  }

  /** What every step keeps of a session's words. */
  ghost predicate Spoke(k: Lock, i: Sid, x: Session) {
    && Saying(k, i, x) == Believed(x)
    && (Unwritten(k, i) ==> x.heard != [] && Heard(x.heard) == k.turn.want && !x.draining)
    && (x.lost ==> x.entered && Heard(Voiced(x.heard)) == Overloaded && !InFlight(k, i))
    && (!x.entered ==> !x.draining)
    && (ToldDraining(x.heard) ==> x.draining)
    && DrainingLast(x.heard)
    && (x.misordered <==> !Alternates(Voiced(x.heard)))
  }

  ghost predicate SpeakInv(l: Link) {
    forall i :: i in l.sessions ==> Spoke(l.lock, i, l.sessions[i])
  }

  lemma AlternatesNext(h: seq<Word>, w: Word)
    ensures Alternates(h + [w]) <==> Alternates(h) && w == if |h| % 2 == 0 then Overloaded else Ready
    ensures Alternates(h) ==> Heard(h) == if |h| % 2 == 0 then Ready else Overloaded
  {
    assert forall k :: 0 <= k < |h| ==> (h + [w])[k] == h[k];
    assert (h + [w])[|h|] == w;
  }

  /** The heart of the order: under statusMu, what is said next is not what was said last, and it is out
      of turn exactly when it is a first ready or the client's belief was lost. */
  lemma SayingNext(k: Lock, i: Sid, x: Session)
    requires TurnOn(k, i) && k.turn.HasRead? && k.turn.want != Draining && Spoke(k, i, x)
    requires !x.draining && x.said != Some(k.turn.want)
    ensures Spoke(k.(turn := Calling(k.turn.want)), i, Told(x, k.turn.want))
  {
    var w := k.turn.want;
    assert Voiced(x.heard) == x.heard && Voiced(x.heard + [w]) == x.heard + [w];
    AlternatesNext(x.heard, w);
  }

  lemma SpokeSync(l: Link, e: SyncEvent, i: Sid)
    requires SyncEnabled(l, e) && (l.lock.Held? && !l.lock.turn.Locked? ==> l.lock.turn.want != Draining)
    requires i in l.sessions && Spoke(l.lock, i, l.sessions[i])
    ensures Spoke(SyncNext(l, e).lock, i, SyncNext(l, e).sessions[i])
  {
    if e.Decide? && !NothingToSay(l) && i == l.lock.sid {
      SayingNext(l.lock, i, l.sessions[i]);
    }
  }

  lemma SpeakSync(l: Link, e: SyncEvent)
    requires Shape(l) && SpeakInv(l) && SyncEnabled(l, e)
    ensures SpeakInv(SyncNext(l, e))
  {
    forall i | i in SyncNext(l, e).sessions ensures Spoke(SyncNext(l, e).lock, i, SyncNext(l, e).sessions[i]) {
      SpokeSync(l, e, i);
    }
  }

  /** draining, the last word of a session. */
  lemma SayingDraining(k: Lock, i: Sid, x: Session)
    requires Spoke(k, i, x) && x.draining && !ToldDraining(x.heard) && !Unwritten(k, i)
    ensures Spoke(k, i, x.(heard := x.heard + [Draining]))
  {
    assert Voiced(x.heard + [Draining]) == x.heard == Voiced(x.heard);
  }

  lemma SpokeRun(l: Link, e: RunEvent, i: Sid)
    requires Shape(l) && RunEnabled(l, e)
    requires i in l.sessions && Spoke(l.lock, i, l.sessions[i])
    ensures Spoke(RunNext(l, e).lock, i, RunNext(l, e).sessions[i])
  {
    if e.DrainCall? && i == l.main.sid {
      SayingDraining(l.lock, i, l.sessions[i]);
    }
  }

  lemma SpeakRun(l: Link, e: RunEvent)
    requires Shape(l) && SpeakInv(l) && RunEnabled(l, e)
    ensures SpeakInv(RunNext(l, e))
  {
    forall i | i in RunNext(l, e).sessions ensures Spoke(RunNext(l, e).lock, i, RunNext(l, e).sessions[i]) {
      if i in l.sessions {
        SpokeRun(l, e, i);
      }
    }
  }

  // ------------------------------------------------------------------ convergence

  /** A syncStatus that has yet to read the flag will run on session m. */
  ghost predicate ReadOwed(l: Link, m: Sid) {
    || l.main == Entered(m) || l.main == Announced(m)
    || (TurnOn(l.lock, m) && l.lock.turn.Locked?)
    || exists o :: o in l.waiting && l.waiting[o] == m
  }

  /** What `said` will be when the turn on m is over, as far as it has read the flag. */
  function Soon(l: Link, m: Sid): Option<Word>
    requires m in l.sessions
  {
    if TurnOn(l.lock, m) && (l.lock.turn.HasRead? || l.lock.turn.Calling?) then Some(l.lock.turn.want)
    else l.sessions[m].said
  }

  /** What every step keeps of the live session m: the flag is said, or about to be read again. */
  ghost predicate FlagTold(l: Link, m: Sid)
    requires m in l.sessions
  {
    NotDraining(l.main) ==>
      l.sessions[m].said.Some? && (Soon(l, m) == Some(WordOf(l.overloaded)) || ReadOwed(l, m))
  }

  /** And: with no turn about to write it, State() is what was said unless it is marked. */
  ghost predicate StateTold(l: Link, m: Sid)
    requires m in l.sessions
  {
    NotDraining(l.main) && !l.main.Entered? && l.sessions[m].said.Some? && !Unwritten(l.lock, m) ==>
      (l.state == InstanceOf(l.sessions[m].said.value) <==> !l.sessions[m].misstated)
  }

  ghost predicate Live(l: Link, m: Sid) {
    l.active == Some(m) && m in l.sessions && l.sessions[m].entered
  }

  /** The live session's flag is told, and State() tells it. */
  ghost predicate FlagInv(l: Link) { l.active.Some? && Live(l, l.active.value) ==> FlagTold(l, l.active.value) }
  ghost predicate StateInv(l: Link) { l.active.Some? && Live(l, l.active.value) ==> StateTold(l, l.active.value) }

  ghost predicate DrainInv(l: Link) {
    && (DrainMarked(l.main) || l.main.DrainStated? ==> l.state == IsDraining)
    && (l.main.Down? ==> l.state == Offline) && (l.main.Dialing? ==> l.state == Connecting)
  }

  lemma OwedKept(l: Link, l': Link, m: Sid)
    requires ReadOwed(l, m) && l'.main == l.main
    requires TurnOn(l.lock, m) && l.lock.turn.Locked? ==> l'.lock == l.lock
    requires forall o :: o in l.waiting && l.waiting[o] == m ==> o in l'.waiting && l'.waiting[o] == m
    ensures ReadOwed(l', m)
  {
    if o :| o in l.waiting && l.waiting[o] == m {
      assert o in l'.waiting && l'.waiting[o] == m;
    }
  }

  lemma FlagQueue(l: Link, e: SyncEvent, m: Sid)
    requires Shape(l) && SyncEnabled(l, e) && Live(l, m) && FlagTold(l, m)
    requires e.CallSetOverloaded? || e.TakeTurn? || e.ReadFlag?
    ensures FlagTold(SyncNext(l, e), m)
  {
    var l' := SyncNext(l, e);
    match e
    case CallSetOverloaded(id, v) => assert l'.waiting[Caller(id)] == m;
    case TakeTurn(o) =>
      if ReadOwed(l, m) && l.waiting[o] != m {
        OwedKept(l, l'.(lock := l.lock), m);
      }
    case ReadFlag => if l.lock.sid != m && ReadOwed(l, m) { OwedKept(l, l', m); }
  }

  lemma FlagTurn(l: Link, e: SyncEvent, m: Sid)
    requires Shape(l) && SyncEnabled(l, e) && Live(l, m) && FlagTold(l, m)
    requires e.Decide? || e.Return? || e.Finish?
    ensures FlagTold(SyncNext(l, e), m)
  {
    var l' := SyncNext(l, e);
    if ReadOwed(l, m) && l'.main == l.main {
      OwedKept(l, l', m);
    }
  }

  lemma FlagSync(l: Link, e: SyncEvent)
    requires Shape(l) && SyncEnabled(l, e) && FlagInv(l)
    ensures FlagInv(SyncNext(l, e))
  {
    if l.active.Some? && Live(l, l.active.value) {
      if e.Decide? || e.Return? || e.Finish? {
        FlagTurn(l, e, l.active.value);
      } else {
        FlagQueue(l, e, l.active.value);
      }
    }
  }

  /** A turn leaves State() right unless its word was written over meanwhile. */
  lemma StateSync(l: Link, e: SyncEvent, m: Sid)
    requires SyncEnabled(l, e) && Live(l, m) && Spoke(l.lock, m, l.sessions[m]) && StateTold(l, m)
    requires l.lock.Held? && !l.lock.turn.Locked? ==> l.lock.turn.want != Draining
    ensures StateTold(SyncNext(l, e), m)
  {
  }

  lemma FlagRun(l: Link, e: RunEvent)
    requires Shape(l) && RunEnabled(l, e) && FlagInv(l)
    ensures FlagInv(RunNext(l, e))
  {
    var l' := RunNext(l, e);
    match e
    case StartSync => assert l'.waiting[Registrar] == l.main.sid;
    case RegistrationPokes =>
      if Live(l, l.main.sid) && ReadOwed(l, l.main.sid) {
        OwedKept(l, l'.(main := l.main), l.main.sid);
      }
    case _ =>
  }

  /** The registration leaves State() right unless an overloaded came before it. */
  lemma StateRun(l: Link, e: RunEvent, m: Sid)
    requires Shape(l) && RunEnabled(l, e) && StateInv(l)
    requires Live(RunNext(l, e), m) && m in l.sessions && Spoke(l.lock, m, l.sessions[m])
    ensures StateTold(RunNext(l, e), m)
  {
  }

  lemma DrainRun(l: Link, e: RunEvent)
    requires RunEnabled(l, e) && DrainInv(l)
    ensures DrainInv(RunNext(l, e))
  {
  }

  lemma DrainSync(l: Link, e: SyncEvent)
    requires Shape(l) && SyncEnabled(l, e) && DrainInv(l)
    ensures DrainInv(SyncNext(l, e))
  {
  }

  lemma LiveFlag(l: Link, on: bool)
    requires Shape(l) && FlagInv(l)
    ensures FlagInv(FlagSet(l, on))
  {
    var l' := FlagSet(l, on);
    if l.active.Some? {
      assert l'.waiting[Watcher] == l.active.value;
    }
  }

  // ------------------------------------------------------------ how often it speaks

  function One(b: bool): nat { if b then 1 else 0 }

  /** The syncStatus calls that may still speak: queued, or with the turn and undecided. */
  function Unspoken(l: Link): nat {
    |l.waiting| + One(l.lock.Held? && (l.lock.turn.Locked? || l.lock.turn.HasRead?))
    + One(l.main.Published? || l.main.Entered? || l.main.Announced?)
  }

  /** Every /status but draining is owed to a flip, a registration or a caller of SetOverloaded. */
  ghost predicate CountInv(s: State) {
    s.link.spoken + Unspoken(s.link) + One(s.load.watch.Setting?) <= s.load.flips + s.link.registrations + s.link.calls
  }

  lemma Removed<K, V>(m: map<K, V>, k: K)
    requires k in m
    ensures |m - {k}| == |m| - 1
  {
    assert (m - {k}).Keys == m.Keys - {k};
  }

  lemma CountTurn(l: Link, e: SyncEvent)
    requires SyncEnabled(l, e) && (e.ReadFlag? || e.Decide? || e.Return? || e.Finish?)
    ensures
      var l' := SyncNext(l, e);
      l'.spoken + Unspoken(l') <= l.spoken + Unspoken(l) && l'.calls == l.calls && l'.registrations == l.registrations
  {
    assert SyncNext(l, e).waiting == l.waiting;
  }

  lemma Inserted<K, V>(m: map<K, V>, k: K, v: V)
    ensures |m[k := v]| <= |m| + 1
  {
    assert m[k := v].Keys == m.Keys + {k};
  }

  lemma CountSync(l: Link, e: SyncEvent)
    requires SyncEnabled(l, e)
    ensures
      var l' := SyncNext(l, e);
      l'.spoken + Unspoken(l') <= l.spoken + Unspoken(l) + (l'.calls - l.calls) && l'.registrations == l.registrations
  {
    match e
    case CallSetOverloaded(id, _) => if l.active.Some? { Inserted(l.waiting, Caller(id), l.active.value); }
    case TakeTurn(o) => Removed(l.waiting, o);
    case _ => CountTurn(l, e);
  }

  lemma CountRun(l: Link, e: RunEvent)
    requires RunEnabled(l, e) && Shape(l)
    ensures
      var l' := RunNext(l, e);
      l'.spoken + Unspoken(l') <= l.spoken + Unspoken(l) + (l'.registrations - l.registrations) && l'.calls == l.calls
  {
  }

  // ---------------------------------------------------------------- every interleaving

  ghost predicate LinkInv(l: Link) {
    Shape(l) && SpeakInv(l) && FlagInv(l) && StateInv(l) && DrainInv(l)
  }

  lemma LinkSync(l: Link, e: SyncEvent)
    requires LinkInv(l) && SyncEnabled(l, e)
    ensures LinkInv(SyncNext(l, e))
  {
    ShapeSync(l, e);
    SpeakSync(l, e);
    FlagSync(l, e);
    DrainSync(l, e);
    if l.active.Some? && Live(l, l.active.value) {
      StateSync(l, e, l.active.value);
    }
  }

  lemma LinkRun(l: Link, e: RunEvent)
    requires LinkInv(l) && RunEnabled(l, e)
    ensures LinkInv(RunNext(l, e))
  {
    ShapeRun(l, e);
    SpeakRun(l, e);
    FlagRun(l, e);
    DrainRun(l, e);
    var l' := RunNext(l, e);
    if l'.active.Some? && Live(l', l'.active.value) {
      StateRun(l, e, l'.active.value);
    }
  }

  /** The watcher tells when it says it does, and unless others call SetOverloaded the flag is its own. */
  ghost predicate TellInv(s: State) {
    && (s.load.watch.Telling? <==> Busy(s.link, Watcher))
    && (s.link.calls == 0 && !s.load.watch.Setting? ==> s.link.overloaded == s.load.on)
  }

  ghost predicate Inv(s: State) {
    && WakeInv(s.load) && CostInv(s.load)
    && LinkInv(s.link)
    && TellInv(s) && CountInv(s)
  }

  /** A change of the watcher's flag is a flip, and leaves SetOverloaded to be called. */
  lemma Verdicts(c: Counter, e: LoadEvent)
    requires LoadEnabled(c, e)
    ensures
      var c' := LoadNext(c, e);
      && (c'.watch.Telling? <==> c.watch.Telling?)
      && (c.watch.Setting? ==> c'.watch.Setting? && c'.on == c.on)
      && (c'.on == c.on || c'.watch.Setting?)
      && c'.flips - c.flips == One(c'.watch.Setting?) - One(c.watch.Setting?)
  {
  }

  lemma LoadStep(s: State, e: LoadEvent)
    requires Inv(s) && Enabled(s, OnLoad(e))
    ensures Inv(Next(s, OnLoad(e)))
  {
    WakeStep(s.load, e);
    CostStep(s.load, e);
    Verdicts(s.load, e);
    assert Next(s, OnLoad(e)).link == s.link;
  }

  lemma FlagStep(s: State)
    requires Inv(s) && Enabled(s, SetFlag)
    ensures Inv(Next(s, SetFlag))
  {
    LinkFlag(s.link, s.load.on);
    CounterFlag(s);
  }

  lemma LinkFlag(l: Link, on: bool)
    requires LinkInv(l) && !Busy(l, Watcher)
    ensures LinkInv(FlagSet(l, on))
  {
    ShapeFlag(l, on);
    LiveFlag(l, on);
  }

  lemma CounterFlag(s: State)
    requires WakeInv(s.load) && CostInv(s.load) && TellInv(s) && CountInv(s) && Enabled(s, SetFlag)
    ensures WakeInv(Next(s, SetFlag).load) && CostInv(Next(s, SetFlag).load)
    ensures TellInv(Next(s, SetFlag)) && CountInv(Next(s, SetFlag))
  {
    assert PokeOwed(s.load) ==> PokeOwed(Next(s, SetFlag).load);
  }

  lemma TellingSync(s: State, e: SyncEvent)
    requires TellInv(s) && Enabled(s, OnSync(e)) && Shape(s.link)
    ensures TellInv(Next(s, OnSync(e)))
  {
  }

  /** The watcher's position moves at most from telling to idle. */
  lemma CounterSync(s: State, e: SyncEvent)
    requires WakeInv(s.load) && CostInv(s.load) && TellInv(s) && Enabled(s, OnSync(e))
    ensures WakeInv(Next(s, OnSync(e)).load) && CostInv(Next(s, OnSync(e)).load)
  {
    var c, c' := s.load, Next(s, OnSync(e)).load;
    assert c' == c || (c.watch.Telling? && c' == c.(watch := Idle));
    assert PokeOwed(c) ==> PokeOwed(c');
  }

  lemma SyncStep(s: State, e: SyncEvent)
    requires Inv(s) && Enabled(s, OnSync(e))
    ensures Inv(Next(s, OnSync(e)))
  {
    CounterSync(s, e);
    TellingSync(s, e);
    LinkSyncStep(s, e);
    CountSyncStep(s, e);
  }

  lemma LinkSyncStep(s: State, e: SyncEvent)
    requires LinkInv(s.link) && Enabled(s, OnSync(e))
    ensures LinkInv(Next(s, OnSync(e)).link)
  {
    LinkSync(s.link, e);
    assert Next(s, OnSync(e)).link == SyncNext(s.link, e);
  }

  lemma CountSyncStep(s: State, e: SyncEvent)
    requires CountInv(s) && Enabled(s, OnSync(e))
    ensures CountInv(Next(s, OnSync(e)))
  {
    CountSync(s.link, e);
  }

  lemma RunStep(s: State, e: RunEvent)
    requires Inv(s) && Enabled(s, OnRun(e))
    ensures Inv(Next(s, OnRun(e)))
  {
    LinkRunStep(s, e);
    CountRun(s.link, e);
    CounterRun(s, e);
  }

  lemma LinkRunStep(s: State, e: RunEvent)
    requires LinkInv(s.link) && Enabled(s, OnRun(e))
    ensures LinkInv(Next(s, OnRun(e)).link)
  {
    LinkRun(s.link, e);
    assert Next(s, OnRun(e)).link == RunNext(s.link, e);
  }

  /** A registration's poke settles what a /reload left open. */
  lemma CounterRun(s: State, e: RunEvent)
    requires WakeInv(s.load) && CostInv(s.load) && TellInv(s) && Shape(s.link) && Enabled(s, OnRun(e))
    ensures WakeInv(Next(s, OnRun(e)).load) && CostInv(Next(s, OnRun(e)).load) && TellInv(Next(s, OnRun(e)))
  {
    var c, c' := s.load, Next(s, OnRun(e)).load;
    assert c' == c || (e.RegistrationPokes? && c' == c.(wake := true, stale := false));
    assert PokeOwed(c) ==> PokeOwed(c');
  }

  lemma Step(s: State, e: Event)
    requires Inv(s) && Enabled(s, e)
    ensures Inv(Next(s, e))
  {
    match e
    case OnLoad(le) => LoadStep(s, le);
    case SetFlag => FlagStep(s);
    case OnSync(se) => SyncStep(s, se);
    case OnRun(re) => RunStep(s, re);
  }

  lemma {:induction false} Always(s: State, es: seq<Event>)
    requires Inv(s) && Play(s, es).Some?
    ensures Inv(Play(s, es).value)
    decreases |es|
  {
    if es != [] {
      Step(s, es[0]);
      Always(Next(s, es[0]), es[1..]);
    }
  }

  /** A state some interleaving of a client with the given capacity leads to. */
  ghost predicate Reaches(capacity: int, es: seq<Event>, s: State) {
    capacity >= 1 && Play(Init(capacity), es) == Some(s)
  }

  lemma Reached(capacity: int, es: seq<Event>, s: State)
    requires Reaches(capacity, es, s)
    ensures Inv(s)
  {
    Always(Init(capacity), es);
  }

  /** (overloaded ready)* [overloaded] [draining] */
  predicate InOrder(h: seq<Word>) {
    || h == [] || h == [Draining] || h == [Overloaded] || h == [Overloaded, Draining]
    || (|h| >= 2 && h[0] == Overloaded && h[1] == Ready && InOrder(h[2..]))
  }

  lemma {:induction false} AlternatesInOrder(h: seq<Word>)
    ensures InOrder(h) <==> Alternates(Voiced(h))
    decreases |h|
  {
    if |h| > 2 {
      AlternatesInOrder(h[2..]);
      AlternatesFrom(h);
    } else if |h| == 2 {
      assert h == [h[0], h[1]];
      assert h[2..] == [];
    } else if |h| == 1 {
      assert h == [h[0]];
    }
  }

  lemma AlternatesFrom(h: seq<Word>)
    requires |h| > 2
    ensures Alternates(Voiced(h)) <==> h[0] == Overloaded && h[1] == Ready && Alternates(Voiced(h[2..]))
  {
    var v, t := Voiced(h), Voiced(h[2..]);
    assert t == v[2..] && v[0] == h[0];
    if |v| > 1 {
      assert v[1] == h[1];
    }
    assert forall k :: 0 <= k < |t| ==> t[k] == v[k + 2];
    assert forall k :: 2 <= k < |v| ==> v[k] == t[k - 2];
  }

  /** No two consecutive announcements are equal, and nothing follows draining. */
  lemma {:induction false} InOrderNeverRepeats(h: seq<Word>, k: nat)
    requires InOrder(h) && k + 1 < |h|
    ensures h[k] != h[k + 1] && h[k] != Draining
    decreases |h|
  {
    if |h| > 2 {
      if k >= 2 {
        InOrderNeverRepeats(h[2..], k - 2);
      } else if k == 1 {
        assert h[2] == h[2..][0] && h[2..] != [] && InOrder(h[2..]);
      }
    }
  }

  /** Announcement order: in every interleaving and on every session, draining comes once and last; what
      was announced is in order exactly when the session is not marked misordered; and `said` is what
      the gateway holds, but for the word being sent, exactly when it is not marked lost. */
  lemma AnnouncementOrder(capacity: int, es: seq<Event>, s: State, i: Sid)
    requires Reaches(capacity, es, s) && i in s.link.sessions
    ensures DrainingLast(s.link.sessions[i].heard)
    ensures InOrder(s.link.sessions[i].heard) <==> !s.link.sessions[i].misordered
    ensures s.link.sessions[i].entered ==>
      (Saying(s.link.lock, i, s.link.sessions[i]) == Some(Heard(Voiced(s.link.sessions[i].heard))) <==> !s.link.sessions[i].lost)
  {
    Reached(capacity, es, s);
    assert Spoke(s.link.lock, i, s.link.sessions[i]);
    AlternatesInOrder(s.link.sessions[i].heard);
  }

  /** Nobody is in SetOverloaded or syncStatus, and session m is live, registered and not draining. */
  predicate Quiet(l: Link, m: Sid) {
    (l.main == Poking(m) || l.main == Looping(m)) && l.waiting == map[] && l.lock.Free? && m in l.sessions
  }

  /** Convergence: when it is quiet `said` is the flag as it is, however many callers raced each other
      or the registration; the gateway holds the flag exactly when the session is not marked lost, and
      State() is the flag exactly when it is not marked misstated. */
  lemma Convergence(capacity: int, es: seq<Event>, s: State, m: Sid)
    requires Reaches(capacity, es, s) && Quiet(s.link, m)
    ensures s.link.sessions[m].said == Some(if s.link.overloaded then Overloaded else Ready)
    ensures Heard(Voiced(s.link.sessions[m].heard)) == (if s.link.overloaded then Overloaded else Ready) <==> !s.link.sessions[m].lost
    ensures s.link.state == (if s.link.overloaded then IsOverloaded else IsReady) <==> !s.link.sessions[m].misstated
  {
    Reached(capacity, es, s);
    assert Live(s.link, m) && Spoke(s.link.lock, m, s.link.sessions[m]);
  }

  /** A drain that has made its call has announced draining; and without a connection State() says so. */
  lemma DrainIsAnnounced(capacity: int, es: seq<Event>, s: State)
    requires Reaches(capacity, es, s)
    ensures forall m :: s.link.main == DrainCalled(m) || s.link.main == Drained(m) ==>
      m in s.link.sessions && s.link.sessions[m].heard != [] && s.link.sessions[m].heard[|s.link.sessions[m].heard| - 1] == Draining
    ensures s.link.main.Down? ==> s.link.state == Offline
    ensures s.link.main.Dialing? ==> s.link.state == Connecting
  {
    Reached(capacity, es, s);
  }

  /** While a drain is under way State() says so, whoever else runs. */
  lemma DrainIsNotOverwritten(capacity: int, es: seq<Event>, s: State)
    requires Reaches(capacity, es, s) && DrainMarked(s.link.main)
    ensures s.link.state == IsDraining
  {
    Reached(capacity, es, s);
  }

  /** What an interleaving adds up to: the changes made by Add, their absolute values, registrations and
      calls of SetOverloaded by others than the watcher. */
  function Sum(es: seq<Event>): int {
    if es == [] then 0 else (if es[0].OnLoad? && es[0].load.AddCount? then es[0].load.d else 0) + Sum(es[1..])
  }

  function Moved(es: seq<Event>): nat {
    if es == [] then 0
    else (if es[0].OnLoad? && es[0].load.AddCount? then (if es[0].load.d < 0 then -es[0].load.d else es[0].load.d) else 0) + Moved(es[1..])
  }

  function Registrations(es: seq<Event>): nat { if es == [] then 0 else One(es[0] == OnRun(Publish)) + Registrations(es[1..]) }

  function Callers(es: seq<Event>): nat {
    if es == [] then 0 else One(es[0].OnSync? && es[0].sync.CallSetOverloaded?) + Callers(es[1..])
  }

  /** The steps of an interleaving that change the watcher's flag; and those that tell a session ready or
      overloaded. */
  function Flips(s: State, es: seq<Event>): nat
    decreases |es|
  {
    if es == [] || !Enabled(s, es[0]) then 0
    else One(Next(s, es[0]).load.on != s.load.on) + Flips(Next(s, es[0]), es[1..])
  }

  function Tellings(s: State, es: seq<Event>): nat
    decreases |es|
  {
    if es == [] || !Enabled(s, es[0]) then 0 else One(Tells(s, es[0])) + Tellings(Next(s, es[0]), es[1..])
  }

  predicate Tells(s: State, e: Event)
    requires Enabled(s, e)
  {
    e.OnSync? && s.link.lock.Held? && s.link.lock.sid in s.link.sessions && s.link.lock.sid in Next(s, e).link.sessions
    && Next(s, e).link.sessions[s.link.lock.sid].heard != s.link.sessions[s.link.lock.sid].heard
  }

  /** Without a /reload the capacity is the one the client began with; with one, the last. */
  function CapacityAfter(capacity: int, es: seq<Event>): int
    decreases |es|
  {
    if es == [] then capacity
    else CapacityAfter(if es[0].OnLoad? && es[0].load.Reload? then es[0].load.capacity else capacity, es[1..])
  }

  /** A /reload no registration has poked after. */
  predicate Unpoked(before: bool, es: seq<Event>)
    decreases |es|
  {
    if es == [] then before
    else Unpoked(if es[0] == OnRun(RegistrationPokes) then false else before || (es[0].OnLoad? && es[0].load.Reload?), es[1..])
  }

  /** Every /reload names the capacity the client has. */
  predicate SameCapacity(capacity: int, es: seq<Event>) {
    forall i :: 0 <= i < |es| && es[i].OnLoad? && es[i].load.Reload? ==> es[i].load.capacity == capacity
  }

  lemma {:induction false} NotReloaded(s: State, es: seq<Event>, t: State)
    requires Play(s, es) == Some(t) && SameCapacity(s.load.capacity, es)
    ensures t.load.capacity == s.load.capacity && (t.load.reloaded ==> s.load.reloaded)
    decreases |es|
  {
    if es != [] {
      StepAddsUp(s, es[0]);
      assert [es[0]][1..] == [];
      NotReloaded(Next(s, es[0]), es[1..], t);
    }
  }

  lemma LoadAddsUp(c: Counter, e: LoadEvent)
    requires LoadEnabled(c, e)
    ensures
      var c', es := LoadNext(c, e), [OnLoad(e)];
      && c'.n == c.n + Sum(es) && c'.moved == c.moved + Moved(es)
      && c'.flips == c.flips + One(c'.on != c.on) && c'.capacity == CapacityAfter(c.capacity, es)
      && (c'.stale ==> Unpoked(c.stale, es)) && (c'.reloaded ==> c.reloaded || c'.capacity != c.capacity)
  {
    assert [OnLoad(e)][1..] == [];
  }

  lemma LinkAddsUp(l: Link, e: RunEvent)
    requires RunEnabled(l, e)
    ensures RunNext(l, e).registrations == l.registrations + Registrations([OnRun(e)]) && RunNext(l, e).calls == l.calls
  {
    assert [OnRun(e)][1..] == [];
  }

  lemma SyncAddsUp(l: Link, e: SyncEvent)
    requires SyncEnabled(l, e)
    ensures SyncNext(l, e).calls == l.calls + Callers([OnSync(e)]) && SyncNext(l, e).registrations == l.registrations
  {
    assert [OnSync(e)][1..] == [];
  }

  lemma StepAddsUp(s: State, e: Event)
    requires Enabled(s, e)
    ensures
      var t := Next(s, e);
      && t.load.n == s.load.n + Sum([e]) && t.load.moved == s.load.moved + Moved([e])
      && t.link.registrations == s.link.registrations + Registrations([e]) && t.link.calls == s.link.calls + Callers([e])
      && t.load.flips == s.load.flips + One(t.load.on != s.load.on)
      && t.load.capacity == CapacityAfter(s.load.capacity, [e])
      && (t.load.stale ==> Unpoked(s.load.stale, [e])) && (t.load.reloaded ==> s.load.reloaded || t.load.capacity != s.load.capacity)
  {
    assert [e][1..] == [];
    match e
    case OnLoad(le) => LoadAddsUp(s.load, le);
    case SetFlag =>
    case OnSync(se) => SyncAddsUp(s.link, se);
    case OnRun(re) => LinkAddsUp(s.link, re);
  }

  lemma Singly(e: Event, es: seq<Event>, capacity: int, b: bool)
    ensures Sum([e] + es) == Sum([e]) + Sum(es) && Moved([e] + es) == Moved([e]) + Moved(es)
    ensures Registrations([e] + es) == Registrations([e]) + Registrations(es) && Callers([e] + es) == Callers([e]) + Callers(es)
    ensures CapacityAfter(capacity, [e] + es) == CapacityAfter(CapacityAfter(capacity, [e]), es)
    ensures Unpoked(b, [e] + es) == Unpoked(Unpoked(b, [e]), es)
  {
    assert ([e] + es)[1..] == es && [e][1..] == [];
  }

  lemma {:induction false} UnpokedGrows(es: seq<Event>, b: bool)
    ensures Unpoked(false, es) ==> Unpoked(b, es)
    decreases |es|
  {
    if es != [] {
      UnpokedGrows(es[1..], if es[0] == OnRun(RegistrationPokes) then false else b || (es[0].OnLoad? && es[0].load.Reload?));
    }
  }

  lemma SyncTells(l: Link, e: SyncEvent)
    requires SyncEnabled(l, e)
    ensures
      var l' := SyncNext(l, e);
      l'.spoken == l.spoken + One(
        l.lock.Held? && l.lock.sid in l.sessions && l.lock.sid in l'.sessions
        && l'.sessions[l.lock.sid].heard != l.sessions[l.lock.sid].heard)
  {
    if e.Decide? && !NothingToSay(l) {
      var x := l.sessions[l.lock.sid];
      assert |x.heard + [l.lock.turn.want]| == |x.heard| + 1;
    }
  }

  lemma StepTells(s: State, e: Event)
    requires Enabled(s, e)
    ensures Next(s, e).link.spoken == s.link.spoken + One(Tells(s, e))
  {
    if e.OnSync? {
      SyncTells(s.link, e.sync);
      assert Next(s, e).link == SyncNext(s.link, e.sync);
    }
  }

  /** The flag changes by a caller's SetOverloaded and the watcher's, to what they say, and by nothing else. */
  lemma FlagSetBy(s: State, e: Event)
    requires Enabled(s, e)
    ensures Next(s, e).link.overloaded ==
      if e.OnSync? && e.sync.CallSetOverloaded? then e.sync.value else if e.SetFlag? then s.load.on else s.link.overloaded
  {
  }

  /** The history kept in a state is what the interleaving adds up to. */
  lemma {:induction false} AddsUp(s: State, es: seq<Event>, t: State)
    requires Play(s, es) == Some(t)
    ensures t.load.n == s.load.n + Sum(es) && t.load.moved == s.load.moved + Moved(es)
    ensures t.link.registrations == s.link.registrations + Registrations(es) && t.link.calls == s.link.calls + Callers(es)
    ensures t.load.flips == s.load.flips + Flips(s, es) && t.link.spoken == s.link.spoken + Tellings(s, es)
    ensures t.load.capacity == CapacityAfter(s.load.capacity, es)
    ensures t.load.stale ==> Unpoked(s.load.stale, es)
    decreases |es|
  {
    if es != [] {
      StepAddsUp(s, es[0]);
      StepTells(s, es[0]);
      AddsUp(Next(s, es[0]), es[1..], t);
      Singly(es[0], es[1..], s.load.capacity, s.load.stale);
      UnpokedGrows(es[1..], Unpoked(s.load.stale, [es[0]]));
      assert [es[0]] + es[1..] == es;
    }
  }

  /** No lost wake-up: with the watcher idle, the wake slot empty and no Add in progress, the watcher's
      flag is on at the capacity and off at max(1, capacity/4) below it, the count being what Add made it;
      and the client's flag is the watcher's when nobody else sets it; after a /reload, once the next
      registration has poked. */
  lemma NoLostWakeUp(capacity: int, es: seq<Event>, s: State)
    requires Reaches(capacity, es, s)
    requires s.load.watch.Idle? && !s.load.wake && s.load.adds == map[] && !s.load.stale
    ensures s.load.n == Sum(es) && s.load.capacity == CapacityAfter(capacity, es)
    ensures Sum(es) >= s.load.capacity ==> s.load.on
    ensures Sum(es) < s.load.capacity && Sum(es) + s.load.capacity / 4 <= s.load.capacity ==> !s.load.on
    ensures Callers(es) == 0 ==> s.link.overloaded == s.load.on
  {
    Reached(capacity, es, s);
    AddsUp(Init(capacity), es, s);
  }

  /** Amortised bound: with the capacity unchanged, the flips, and with them every /status that is
      not a registration's, a caller's or draining, cost max(1, capacity/4) of change in the count each. */
  lemma AmortisedStatus(capacity: int, es: seq<Event>, s: State)
    requires Reaches(capacity, es, s) && SameCapacity(capacity, es)
    ensures s.load.capacity == capacity && 0 <= Low(capacity) < capacity
    ensures
      var gap := if capacity / 4 > 1 then capacity / 4 else 1;
      && Flips(Init(capacity), es) * gap <= Moved(es)
      && (Tellings(Init(capacity), es) - Registrations(es) - Callers(es)) * gap <= Moved(es)
  {
    var gap := if capacity / 4 > 1 then capacity / 4 else 1;
    FlipsPaid(capacity, es, s, gap);
    Amortised(Flips(Init(capacity), es), Tellings(Init(capacity), es) - Registrations(es) - Callers(es), gap, Moved(es));
  }

  lemma FlipsPaid(capacity: int, es: seq<Event>, s: State, gap: int)
    requires Reaches(capacity, es, s) && SameCapacity(capacity, es) && gap == if capacity / 4 > 1 then capacity / 4 else 1
    ensures s.load.capacity == capacity && Flips(Init(capacity), es) * gap <= Moved(es)
    ensures Tellings(Init(capacity), es) - Registrations(es) - Callers(es) <= Flips(Init(capacity), es)
  {
    ReachedCosts(capacity, es, s);
    NotReloaded(Init(capacity), es, s);
    PaidFor(s, gap);
    ReachedAddsUp(capacity, es, s);
  }

  lemma ReachedCosts(capacity: int, es: seq<Event>, s: State)
    requires Reaches(capacity, es, s)
    ensures CostInv(s.load) && CountInv(s)
  {
    Reached(capacity, es, s);
  }

  lemma ReachedAddsUp(capacity: int, es: seq<Event>, s: State)
    requires Reaches(capacity, es, s)
    ensures s.load.flips == Flips(Init(capacity), es) && s.load.moved == Moved(es) && s.link.spoken == Tellings(Init(capacity), es)
    ensures s.link.registrations == Registrations(es) && s.link.calls == Callers(es)
  {
    AddsUp(Init(capacity), es, s);
  }

  lemma PaidFor(s: State, gap: int)
    requires CostInv(s.load) && CountInv(s) && !s.load.reloaded
    requires gap == if s.load.capacity / 4 > 1 then s.load.capacity / 4 else 1
    ensures s.load.flips * gap <= s.load.moved && s.link.spoken <= s.load.flips + s.link.registrations + s.link.calls
  {
    assert gap == Gap(s.load.capacity);
  }

  lemma Amortised(flips: nat, told: int, gap: int, moved: nat)
    requires told <= flips && gap >= 1 && flips * gap <= moved
    ensures told * gap <= moved
  {
    Scaled(told, flips, gap);
  }

  lemma Scaled(a: int, b: int, g: int)
    requires a <= b && g >= 0
    ensures a * g <= b * g
  {
  }

  // ------------------------------------------------- the window in a registration

  /** A session is published and its registration has not yet written `said` and the state. */
  predicate InWindow(m: Main) { m.Published? || m.Entered? }

  /** Nobody calls SetOverloaded inside a registration's window. */
  ghost predicate Undisturbed(s: State, es: seq<Event>)
    decreases |es|
  {
    es != [] && Enabled(s, es[0]) ==>
      && (es[0].SetFlag? || (es[0].OnSync? && es[0].sync.CallSetOverloaded?) ==> !InWindow(s.link.main))
      && Undisturbed(Next(s, es[0]), es[1..])
  }

  predicate Unmarked(x: Session) { !x.lost && !x.misordered && !x.misstated }

  ghost predicate WindowInv(l: Link) {
    (forall i :: i in l.sessions ==> WindowSession(l, i)) && WindowAlone(l)
  }

  ghost predicate WindowSession(l: Link, i: Sid)
    requires i in l.sessions
  {
    && Unmarked(l.sessions[i])
    && if InWindow(l.main) && i == l.main.sid
       then l.sessions[i].said == (if l.main.Published? then None else Some(Ready)) else l.sessions[i].said.Some?
  }

  /** No syncStatus is on the session inside the window. */
  ghost predicate WindowAlone(l: Link) {
    InWindow(l.main) ==> !TurnOn(l.lock, l.main.sid) && forall o :: o in l.waiting ==> l.waiting[o] != l.main.sid
  }

  lemma WindowSyncSession(l: Link, e: SyncEvent, i: Sid)
    requires WindowAlone(l) && SyncEnabled(l, e) && i in l.sessions && WindowSession(l, i)
    ensures WindowSession(SyncNext(l, e), i)
  {
  }

  lemma WindowSync(l: Link, e: SyncEvent)
    requires Shape(l) && WindowInv(l) && SyncEnabled(l, e)
    requires e.CallSetOverloaded? ==> !InWindow(l.main)
    ensures WindowInv(SyncNext(l, e))
  {
    forall i | i in SyncNext(l, e).sessions ensures WindowSession(SyncNext(l, e), i) {
      WindowSyncSession(l, e, i);
    }
  }

  lemma WindowRun(l: Link, e: RunEvent)
    requires Shape(l) && WindowInv(l) && RunEnabled(l, e)
    ensures WindowInv(RunNext(l, e))
  {
  }

  lemma {:induction false} WindowAlways(s: State, es: seq<Event>)
    requires Inv(s) && WindowInv(s.link) && Play(s, es).Some? && Undisturbed(s, es)
    ensures WindowInv(Play(s, es).value.link)
    decreases |es|
  {
    if es != [] {
      var e := es[0];
      Step(s, e);
      if e.OnSync? {
        WindowSync(s.link, e.sync);
      } else if e.OnRun? {
        WindowRun(s.link, e.run);
      }
      WindowAlways(Next(s, e), es[1..]);
    }
  }

  /** The conditions of AnnouncementOrder and Convergence in terms of calls: no session of an
      interleaving in which no SetOverloaded falls into a registration's window is marked. */
  lemma UndisturbedIsEnough(capacity: int, es: seq<Event>, s: State, i: Sid)
    requires Reaches(capacity, es, s) && Undisturbed(Init(capacity), es) && i in s.link.sessions
    ensures Unmarked(s.link.sessions[i])
    ensures InOrder(s.link.sessions[i].heard)
    ensures Quiet(s.link, i) ==>
      Heard(Voiced(s.link.sessions[i].heard)) == WordOf(s.link.overloaded) && s.link.state == InstanceOf(WordOf(s.link.overloaded))
  {
    WindowAlways(Init(capacity), es);
    AnnouncementOrder(capacity, es, s, i);
    if Quiet(s.link, i) {
      Convergence(capacity, es, s, i);
    }
  }

  lemma {:induction false} PlaySnoc(s: State, es: seq<Event>, e: Event, t: State)
    requires Play(s, es) == Some(t) && Enabled(t, e)
    ensures Play(s, es + [e]) == Some(Next(t, e))
    decreases |es|
  {
    if es == [] {
      assert ([] + [e])[1..] == [];
    } else {
      assert (es + [e])[1..] == es[1..] + [e];
      PlaySnoc(Next(s, es[0]), es[1..], e, t);
    }
  }

  lemma Extend(capacity: int, es: seq<Event>, s: State, e: Event) returns (es': seq<Event>, s': State)
    requires Reaches(capacity, es, s) && Enabled(s, e)
    ensures Reaches(capacity, es', s') && s' == Next(s, e) && es' == es + [e]
  {
    PlaySnoc(Init(capacity), es, e, s);
    es', s' := es + [e], Next(s, e);
  }

  /** A turn of syncStatus up to its /status returned and `said` written. */
  lemma SaidTurn(capacity: int, es: seq<Event>, s: State, o: Owner) returns (es': seq<Event>, s': State)
    requires Reaches(capacity, es, s) && s.link.lock.Free? && o in s.link.waiting
    requires s.link.active == Some(s.link.waiting[o]) && s.link.waiting[o] in s.link.sessions
    requires !s.link.sessions[s.link.waiting[o]].draining
    requires s.link.sessions[s.link.waiting[o]].said != Some(WordOf(s.link.overloaded))
    ensures Reaches(capacity, es', s')
    ensures
      var i, w, x := s.link.waiting[o], WordOf(s.link.overloaded), s.link.sessions[s.link.waiting[o]];
      s' == s.(link := s.link.(waiting := s.link.waiting - {o}, spoken := s.link.spoken + 1, lock := Held(o, i, SaidIt(w)),
                 sessions := s.link.sessions[i := Told(x, w).(said := Some(w))]))
  {
    es', s' := Extend(capacity, es, s, OnSync(TakeTurn(o)));
    es', s' := Extend(capacity, es', s', OnSync(ReadFlag));
    es', s' := Extend(capacity, es', s', OnSync(Decide));
    es', s' := Extend(capacity, es', s', OnSync(Return));
    var i := s.link.waiting[o];
    assert s'.link.sessions == s.link.sessions[i := s'.link.sessions[i]];
  }

  /** A whole turn of syncStatus that speaks. */
  lemma SpeakingTurn(capacity: int, es: seq<Event>, s: State, o: Owner) returns (es': seq<Event>, s': State)
    requires Reaches(capacity, es, s) && s.link.lock.Free? && o in s.link.waiting && !o.Watcher?
    requires s.link.active == Some(s.link.waiting[o]) && s.link.waiting[o] in s.link.sessions
    requires !s.link.sessions[s.link.waiting[o]].draining
    requires s.link.sessions[s.link.waiting[o]].said != Some(WordOf(s.link.overloaded))
    ensures Reaches(capacity, es', s')
    ensures
      var i, w, x := s.link.waiting[o], WordOf(s.link.overloaded), s.link.sessions[s.link.waiting[o]];
      s' == s.(link := s.link.(waiting := s.link.waiting - {o}, state := InstanceOf(w), spoken := s.link.spoken + 1,
                 main := if o.Registrar? && s.link.main.Syncing? then Poking(s.link.main.sid) else s.link.main,
                 sessions := s.link.sessions[i := Told(x, w).(said := Some(w), misstated := false)]))
  {
    es', s' := SaidTurn(capacity, es, s, o);
    es', s' := Extend(capacity, es', s', OnSync(Finish));
    var i := s.link.waiting[o];
    assert s'.link.sessions == s.link.sessions[i := s'.link.sessions[i]];
  }

  /** A whole turn of syncStatus with nothing to say. */
  lemma SilentTurn(capacity: int, es: seq<Event>, s: State, o: Owner) returns (es': seq<Event>, s': State)
    requires Reaches(capacity, es, s) && s.link.lock.Free? && o in s.link.waiting && !o.Watcher?
    requires s.link.waiting[o] in s.link.sessions
    requires s.link.sessions[s.link.waiting[o]].said == Some(WordOf(s.link.overloaded))
    ensures Reaches(capacity, es', s')
    ensures s' == s.(link := s.link.(waiting := s.link.waiting - {o},
                 main := if o.Registrar? && s.link.main.Syncing? then Poking(s.link.main.sid) else s.link.main))
  {
    es', s' := Extend(capacity, es, s, OnSync(TakeTurn(o)));
    es', s' := Extend(capacity, es', s', OnSync(ReadFlag));
    es', s' := Extend(capacity, es', s', OnSync(Decide));
  }

  /** Dial, publish, and a SetOverloaded(true) that finds the session before `said` is written. */
  lemma PublishedAndCalled() returns (es: seq<Event>, s: State)
    ensures Reaches(1, es, s)
    ensures s.link == Link(true, Connecting, Some(0), map[0 := Session(None, false, false, [], false, false, false)], 1,
                           map[Caller(0) := 0], Free, Published(0), 0, 1, 1)
    ensures s.load.watch.Idle?
  {
    es, s := [], Init(1);
    es, s := Extend(1, es, s, OnRun(Dial));
    es, s := Extend(1, es, s, OnRun(Publish));
    es, s := Extend(1, es, s, OnSync(CallSetOverloaded(0, true)));
  }

  lemma PublishedAndTold() returns (es: seq<Event>, s: State)
    ensures Reaches(1, es, s)
    ensures s.link.main == Published(0) && s.link.active == Some(0) && s.link.overloaded
    ensures s.link.waiting == map[] && s.link.lock.Free? && s.load.watch.Idle?
    ensures s.link.sessions == map[0 := Session(Some(Overloaded), false, false, [Overloaded], false, false, false)]
  {
    es, s := PublishedAndCalled();
    es, s := SpeakingTurn(1, es, s, Caller(0));
    assert s.link.waiting.Keys == {} && [] + [Overloaded] == [Overloaded];
    assert s.link.sessions.Keys == {0};
  }

  /** The window is real. A /status that slips in before `said` is written is repeated by the
      registration's own: two consecutive overloaded. */
  lemma RacedRegistrationRepeats() returns (es: seq<Event>, s: State)
    ensures Reaches(1, es, s) && 0 in s.link.sessions
    ensures s.link.sessions[0].heard == [Overloaded, Overloaded] && !InOrder(s.link.sessions[0].heard)
  {
    es, s := PublishedAndTold();
    es, s := Extend(1, es, s, OnRun(Enter));
    es, s := Extend(1, es, s, OnRun(SetReady));
    es, s := Extend(1, es, s, OnRun(StartSync));
    es, s := SpeakingTurn(1, es, s, Registrar);
    assert [Overloaded] + [Overloaded] == [Overloaded, Overloaded];
  }

  /** Or it is never taken back: everybody is done, the flag is off, `said` and State() say ready,
      and the gateway holds overloaded. */
  lemma RacedRegistrationStrands() returns (es: seq<Event>, s: State)
    ensures Reaches(1, es, s) && 0 in s.link.sessions
    ensures s.link.main == Poking(0) && s.link.waiting == map[] && s.link.lock.Free?
    ensures !s.link.overloaded && s.link.sessions[0].said == Some(Ready) && s.link.state == IsReady
    ensures s.link.sessions[0].heard == [Overloaded]
  {
    es, s := PublishedAndTold();
    es, s := Extend(1, es, s, OnRun(Enter));
    es, s := Extend(1, es, s, OnSync(CallSetOverloaded(1, false)));
    es, s := SilentTurn(1, es, s, Caller(1));
    es, s := Extend(1, es, s, OnRun(SetReady));
    es, s := Extend(1, es, s, OnRun(StartSync));
    es, s := SilentTurn(1, es, s, Registrar);
    assert s.link.waiting.Keys == {};
  }

  /** Between the two writes the announcements stay in order, but State() is overwritten: the
      gateway and the flag say overloaded, State() says ready. */
  lemma CrossedRegistrationMisreports() returns (es: seq<Event>, s: State)
    ensures Reaches(1, es, s) && 0 in s.link.sessions && InOrder(s.link.sessions[0].heard)
    ensures s.link.main == Poking(0) && s.link.waiting == map[] && s.link.lock.Free?
    ensures s.link.overloaded && s.link.sessions[0].said == Some(Overloaded) && s.link.state == IsReady
  {
    es, s := [], Init(1);
    es, s := Extend(1, es, s, OnRun(Dial));
    es, s := Extend(1, es, s, OnRun(Publish));
    es, s := Extend(1, es, s, OnRun(Enter));
    es, s := Extend(1, es, s, OnSync(CallSetOverloaded(0, true)));
    es, s := SpeakingTurn(1, es, s, Caller(0));
    es, s := Extend(1, es, s, OnRun(SetReady));
    es, s := Extend(1, es, s, OnRun(StartSync));
    es, s := SilentTurn(1, es, s, Registrar);
    assert s.link.waiting.Keys == {};
  }

  /** A turn that outlives the registration's writes, and writes State() last. */
  lemma OverwrittenTurn() returns (es: seq<Event>, s: State)
    ensures Reaches(1, es, s)
    ensures s.link.main == Announced(0) && s.link.active == Some(0) && s.link.state == IsOverloaded
    ensures s.link.waiting == map[] && s.link.lock.Free?
    ensures s.link.sessions == map[0 := Session(Some(Ready), false, true, [Overloaded], true, false, true)]
  {
    es, s := PublishedAndCalled();
    es, s := SaidTurn(1, es, s, Caller(0));
    es, s := Extend(1, es, s, OnRun(Enter));
    es, s := Extend(1, es, s, OnRun(SetReady));
    es, s := Extend(1, es, s, OnSync(Finish));
    assert s.link.waiting.Keys == {} && [] + [Overloaded] == [Overloaded];
    assert s.link.sessions.Keys == {0};
  }

  /** It ends with State() overloaded, the flag off and `said` ready. */
  lemma OverwrittenTurnMisreports() returns (es: seq<Event>, s: State)
    ensures Reaches(1, es, s) && 0 in s.link.sessions && Quiet(s.link, 0)
    ensures !s.link.overloaded && s.link.sessions[0].said == Some(Ready) && s.link.state == IsOverloaded
  {
    es, s := OverwrittenTurn();
    es, s := Extend(1, es, s, OnSync(CallSetOverloaded(1, false)));
    es, s := SilentTurn(1, es, s, Caller(1));
    es, s := Extend(1, es, s, OnRun(StartSync));
    es, s := SilentTurn(1, es, s, Registrar);
    assert s.link.waiting.Keys == {};
  }
}
