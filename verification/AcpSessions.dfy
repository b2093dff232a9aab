/** The session lifecycle of the ACP agent as a state machine: creating, loading,
    switching the model of, closing and shutting down sessions that own a
    closer, and the turns that run in them. Each step is one critical section
    or one call of a closer; steps of different calls interleave freely. */
module AcpSessions {
  import opened Text

  /** A session object; `switcher` is the call that set `switching`. */
  datatype Session = Session(closer: Option<nat>, active: Option<nat>, switcher: Option<nat>)

  /** A call in flight, by where it stands. */
  datatype Call =
    | NewMade(id: string, made: Option<nat>)
    | LoadMade(id: string, made: Option<nat>)
    | LoadRestored(id: string, made: Option<nat>, restored: Option<nat>)
    | LoadClosing(id: string, session: nat)
    | LoadTook(id: string, made: Option<nat>)
    | LoadReplaying(id: string)
    | Dropping(session: nat)
    | Releasing(made: Option<nat>)
    | CloseWaiting(session: nat, turn: nat)
    | Cancelling(left: set<nat>, made: Option<nat>)
    | Turning(session: nat)
    | TurnEnding
    | Switching(id: string, session: nat, seen: Option<nat>)
    | SwitchMaking(id: string, session: nat)
    | SwitchMade(id: string, session: nat, made: Option<nat>)
    | SwitchFailing(id: string, session: nat)

  /** Where a closer is. */
  datatype Place = InSession(session: nat) | WithCall(call: nat) | Closed

  /** Sessions, closers and calls are numbered as they come up; a turn bears the
      number of the call that runs it. `closes` counts the calls of Close and
      `place` keeps track of every closer ever made. */
  datatype State = State(
    sessions: seq<Session>,
    registered: map<string, nat>,
    calls: map<nat, Call>,
    started: nat,
    closes: multiset<nat>,
    place: seq<Place>)

  function AsSet(c: Option<nat>): set<nat> {
    if c.Some? then {c.value} else {}
  }

  /** The closers a call holds in its own variables. */
  function Held(call: Call): set<nat> {
    match call
    case NewMade(_, c) => AsSet(c)
    case LoadMade(_, c) => AsSet(c)
    case LoadRestored(_, c, d) => AsSet(c) + AsSet(d)
    case LoadTook(_, c) => AsSet(c)
    case Releasing(c) => AsSet(c)
    case Cancelling(_, c) => AsSet(c)
    case SwitchMade(_, _, c) => AsSet(c)
    case _ => {}
  }

  /** The sessions a call took out of the table and still has to close. */
  function Dropped(call: Call): set<nat> {
    match call
    case LoadClosing(_, s) => {s}
    case Dropping(s) => {s}
    case CloseWaiting(s, _) => {s}
    case Cancelling(left, _) => left
    case _ => {}
  }

  predicate InSwitch(call: Call) {
    call.Switching? || call.SwitchMaking? || call.SwitchMade? || call.SwitchFailing?
  }

  predicate RegisteredAs(s: State, id: string, session: nat) {
    id in s.registered && s.registered[id] == session
  }

  // --------------------------------------------------------------------- steps

  datatype Step =
    | StartNew(id: string, made: bool)
    | StartLoad(id: string, made: bool)
    | StartClose(id: string)
    | StartSwitch(id: string)
    | StartTurn(id: string)
    | StartCancelAll
    | FactoryFails
    | RegisterNew(call: nat)
    | LoadFails(call: nat)
    | LoadRestores(call: nat, made: bool)
    | LoadSwaps(call: nat)
    | RegisterLoad(call: nat)
    | LoadTakes(call: nat)
    | LoadCloses(call: nat)
    | ReplayEnds(call: nat)
    | ReplayFails(call: nat)
    | CloseWaited(call: nat)
    | Takes(call: nat)
    | Releases(call: nat)
    | CancelTakes(call: nat, session: nat)
    | CancelCloses(call: nat)
    | CancelEnds(call: nat)
    | TurnEnds(call: nat)
    | TurnDone(call: nat)
    | SwitchWaited(call: nat)
    | SwitchMakes(call: nat, made: bool)
    | SwitchUndoes(call: nat)
    | SwitchAborts(call: nat)
    | SwitchInstalls(call: nat)

  predicate Enabled(s: State, step: Step) {
    match step
    case StartNew(_, _) => true
    case StartLoad(_, _) => true
    case StartClose(id) => id in s.registered && s.registered[id] < |s.sessions|
    case StartSwitch(id) => id in s.registered && s.registered[id] < |s.sessions| && s.sessions[s.registered[id]].switcher == None
    case StartTurn(id) => id in s.registered && s.registered[id] < |s.sessions| && s.sessions[s.registered[id]].switcher == None
    case StartCancelAll => true
    case FactoryFails => true
    // A new session's id is drawn at random and not in use.
    case RegisterNew(j) => j in s.calls && s.calls[j].NewMade? && s.calls[j].id !in s.registered
    case LoadFails(j) => j in s.calls && s.calls[j].LoadMade?
    case LoadRestores(j, _) => j in s.calls && s.calls[j].LoadMade?
    case LoadSwaps(j) => j in s.calls && s.calls[j].LoadRestored?
    case RegisterLoad(j) => j in s.calls && s.calls[j].LoadMade?
    case LoadTakes(j) => j in s.calls && s.calls[j].LoadClosing? && s.calls[j].session < |s.sessions|
    case LoadCloses(j) => j in s.calls && s.calls[j].LoadTook?
    case ReplayEnds(j) => j in s.calls && s.calls[j].LoadReplaying?
    case ReplayFails(j) => j in s.calls && s.calls[j].LoadReplaying?
    case CloseWaited(j) => j in s.calls && s.calls[j].CloseWaiting? && s.calls[j].turn !in s.calls
    case Takes(j) => j in s.calls && s.calls[j].Dropping? && s.calls[j].session < |s.sessions|
    case Releases(j) => j in s.calls && s.calls[j].Releasing?
    case CancelTakes(j, r) => j in s.calls && s.calls[j].Cancelling? && s.calls[j].made == None && r in s.calls[j].left && r < |s.sessions|
    case CancelCloses(j) => j in s.calls && s.calls[j].Cancelling? && s.calls[j].made.Some?
    case CancelEnds(j) => j in s.calls && s.calls[j] == Cancelling({}, None)
    case TurnEnds(j) => j in s.calls && s.calls[j].Turning? && s.calls[j].session < |s.sessions|
    case TurnDone(j) => j in s.calls && s.calls[j].TurnEnding?
    case SwitchWaited(j) => j in s.calls && s.calls[j].Switching? && (s.calls[j].seen.Some? ==> s.calls[j].seen.value !in s.calls)
    case SwitchMakes(j, _) => j in s.calls && s.calls[j].SwitchMaking?
    case SwitchUndoes(j) => j in s.calls && s.calls[j].SwitchMade?
    case SwitchAborts(j) => j in s.calls && (s.calls[j].Switching? || s.calls[j].SwitchMaking? || s.calls[j].SwitchFailing?)
                            && s.calls[j].session < |s.sessions|
    case SwitchInstalls(j) => j in s.calls && s.calls[j].SwitchMade? && s.calls[j].session < |s.sessions|
  }

  // ------------------------------------------------------- what a step changes

  /** The number of the closer the factory makes next, if it makes one. */
  function Fresh(s: State, made: bool): Option<nat> {
    if made then Some(|s.place|) else None
  }

  function Moved(place: seq<Place>, c: Option<nat>, to: Place): seq<Place> {
    if c.Some? && c.value < |place| then place[c.value := to] else place
  }

  function Put(s: State, j: nat, call: Option<Call>): map<nat, Call> {
    if call.Some? then s.calls[j := call.value] else s.calls - {j}
  }

  function Began(s: State, j: nat): nat {
    if j < s.started then s.started else j + 1
  }

  /** The call goes on, or ends. */
  function Goes(s: State, j: nat, call: Option<Call>): State {
    s.(calls := Put(s, j, call))
  }

  /** The factory makes a closer for the call. */
  function Makes(s: State, j: nat, made: bool, call: Call): State {
    s.(calls := s.calls[j := call], started := Began(s, j), place := if made then s.place + [WithCall(j)] else s.place)
  }

  /** The factory fails; what it made is closed at once. */
  function Wastes(s: State): State {
    s.(closes := s.closes + multiset{|s.place|}, place := s.place + [Closed])
  }

  /** The call closes what it holds. */
  function Shuts(s: State, j: nat, c: Option<nat>, call: Option<Call>): State {
    s.(closes := s.closes + multiset(AsSet(c)), place := Moved(s.place, c, Closed), calls := Put(s, j, call))
  }

  /** The call puts a fresh session, which owns what it made, into the table. */
  function Installs(s: State, j: nat, id: string, c: Option<nat>, call: Option<Call>): State {
    s.(sessions := s.sessions + [Session(c, None, None)],
       registered := s.registered[id := |s.sessions|],
       place := Moved(s.place, c, InSession(|s.sessions|)),
       calls := Put(s, j, call))
  }

  /** The call takes a session's closer. */
  function TakesFrom(s: State, j: nat, r: nat, call: Call): State
    requires r < |s.sessions|
  {
    s.(sessions := s.sessions[r := s.sessions[r].(closer := None)],
       place := Moved(s.place, s.sessions[r].closer, WithCall(j)),
       calls := s.calls[j := call])
  }

  /** The call takes sessions out of the table. */
  function Removes(s: State, j: nat, ids: set<string>, call: Call): State {
    s.(registered := s.registered - ids, calls := s.calls[j := call], started := Began(s, j))
  }

  function Revised(s: State, j: nat, r: nat, session: Session, call: Option<Call>): State
    requires r < |s.sessions|
  {
    s.(sessions := s.sessions[r := session], calls := Put(s, j, call), started := Began(s, j))
  }

  /** The call swaps its closer for the session's and ends the switch. */
  function Swaps(s: State, j: nat, r: nat, c: Option<nat>): State
    requires r < |s.sessions|
  {
    var x := s.sessions[r];
    s.(sessions := s.sessions[r := x.(closer := c, switcher := None)],
       place := Moved(Moved(s.place, x.closer, WithCall(j)), c, InSession(r)),
       calls := s.calls[j := Releasing(x.closer)])
  }

  function Next(s: State, step: Step): State
    requires Enabled(s, step)
  {
    match step
    case StartNew(id, made) => Makes(s, s.started, made, NewMade(id, Fresh(s, made)))
    case StartLoad(id, made) => Makes(s, s.started, made, LoadMade(id, Fresh(s, made)))
    case StartClose(id) =>
      var r := s.registered[id];
      Removes(s, s.started, {id}, if s.sessions[r].active.Some? then CloseWaiting(r, s.sessions[r].active.value) else Dropping(r))
    case StartSwitch(id) =>
      var r := s.registered[id];
      Revised(s, s.started, r, s.sessions[r].(switcher := Some(s.started)), Some(Switching(id, r, s.sessions[r].active)))
    case StartTurn(id) =>
      var r := s.registered[id];
      Revised(s, s.started, r, s.sessions[r].(active := Some(s.started)), Some(Turning(r)))
    case StartCancelAll => Removes(s, s.started, s.registered.Keys, Cancelling(s.registered.Values, None))
    case FactoryFails => Wastes(s)
    case RegisterNew(j) => Installs(s, j, s.calls[j].id, s.calls[j].made, None)
    case LoadFails(j) => Goes(s, j, Some(Releasing(s.calls[j].made)))
    case LoadRestores(j, made) => Makes(s, j, made, LoadRestored(s.calls[j].id, s.calls[j].made, Fresh(s, made)))
    case LoadSwaps(j) => Shuts(s, j, s.calls[j].made, Some(LoadMade(s.calls[j].id, s.calls[j].restored)))
    case RegisterLoad(j) =>
      var id := s.calls[j].id;
      Installs(s, j, id, s.calls[j].made, Some(if id in s.registered then LoadClosing(id, s.registered[id]) else LoadReplaying(id)))
    case LoadTakes(j) => TakesFrom(s, j, s.calls[j].session, LoadTook(s.calls[j].id, s.sessions[s.calls[j].session].closer))
    case LoadCloses(j) => Shuts(s, j, s.calls[j].made, Some(LoadReplaying(s.calls[j].id)))
    case ReplayEnds(j) => Goes(s, j, None)
    case ReplayFails(j) =>
      var id := s.calls[j].id;
      if id in s.registered then Removes(s, j, {id}, Dropping(s.registered[id])) else Goes(s, j, None)
    case CloseWaited(j) => Goes(s, j, Some(Dropping(s.calls[j].session)))
    case Takes(j) => TakesFrom(s, j, s.calls[j].session, Releasing(s.sessions[s.calls[j].session].closer))
    case Releases(j) => Shuts(s, j, s.calls[j].made, None)
    case CancelTakes(j, r) => TakesFrom(s, j, r, Cancelling(s.calls[j].left - {r}, s.sessions[r].closer))
    case CancelCloses(j) => Shuts(s, j, s.calls[j].made, Some(Cancelling(s.calls[j].left, None)))
    case CancelEnds(j) => Goes(s, j, None)
    case TurnEnds(j) =>
      var r := s.calls[j].session;
      Revised(s, j, r, s.sessions[r].(active := if s.sessions[r].active == Some(j) then None else s.sessions[r].active), Some(TurnEnding))
    case TurnDone(j) => Goes(s, j, None)
    case SwitchWaited(j) => Goes(s, j, Some(SwitchMaking(s.calls[j].id, s.calls[j].session)))
    case SwitchMakes(j, made) => Makes(s, j, made, SwitchMade(s.calls[j].id, s.calls[j].session, Fresh(s, made)))
    case SwitchUndoes(j) => Shuts(s, j, s.calls[j].made, Some(SwitchFailing(s.calls[j].id, s.calls[j].session)))
    case SwitchAborts(j) =>
      var r := s.calls[j].session;
      if RegisteredAs(s, s.calls[j].id, r) then Revised(s, j, r, s.sessions[r].(switcher := None), None) else Goes(s, j, None)
    case SwitchInstalls(j) =>
      var r := s.calls[j].session;
      if RegisteredAs(s, s.calls[j].id, r) then Swaps(s, j, r, s.calls[j].made)
      else Goes(s, j, Some(Releasing(s.calls[j].made)))
  }

  const Idle: State := State([], map[], map[], 0, multiset{}, [])

  // ----------------------------------------------------------------- invariant

  /** A closer is where its place says, and was closed once if it is closed. */
  ghost predicate CloserOk(s: State, c: nat)
    requires c < |s.place|
  {
    match s.place[c]
    case InSession(r) => s.closes[c] == 0 && r < |s.sessions| && s.sessions[r].closer == Some(c)
    case WithCall(j) => s.closes[c] == 0 && j in s.calls && c in Held(s.calls[j])
    case Closed => s.closes[c] == 1
  }

  /** What a session owns is placed with it; its turn and its switcher are in
      flight; and it is registered or on its way out. */
  ghost predicate SessionOk(s: State, r: nat)
    requires r < |s.sessions|
  {
    var x := s.sessions[r];
    && (x.closer.Some? ==> x.closer.value < |s.place| && s.place[x.closer.value] == InSession(r))
    && (x.active.Some? ==> x.active.value in s.calls && s.calls[x.active.value] == Turning(r))
    && (x.closer.Some? ==> IsRegistered(s, r) || IsDropped(s, r))
  }

  ghost predicate IsRegistered(s: State, r: nat) {
    exists id :: RegisteredAs(s, id, r)
  }

  ghost predicate IsDropped(s: State, r: nat) {
    exists j :: j in s.calls && r in Dropped(s.calls[j])
  }

  /** What a call holds is placed with it; the sessions it names exist; and a
      model switch on a registered session is the one under way there, past
      its wait only when no turn is active. */
  ghost predicate CallOk(s: State, j: nat)
    requires j in s.calls
  {
    var call := s.calls[j];
    && j < s.started
    && (forall c :: c in Held(call) ==> c < |s.place| && s.place[c] == WithCall(j))
    && (call.LoadRestored? && call.made.Some? ==> call.made != call.restored)
    && (forall r :: r in Dropped(call) ==> r < |s.sessions|)
    && (call.Turning? ==> call.session < |s.sessions|)
    && (InSwitch(call) ==>
          && call.session < |s.sessions|
          && (RegisteredAs(s, call.id, call.session) ==>
                && s.sessions[call.session].switcher == Some(j)
                && (s.sessions[call.session].active.Some? ==>
                      call.Switching? && call.seen == s.sessions[call.session].active)))
  }

  ghost predicate TableOk(s: State) {
    && (forall id :: id in s.registered ==> s.registered[id] < |s.sessions|)
    && (forall a, b :: a in s.registered && b in s.registered && s.registered[a] == s.registered[b] ==> a == b)
    && (forall c :: c >= |s.place| ==> s.closes[c] == 0)
  }

  ghost predicate Inv(s: State) {
    && (forall c :: 0 <= c < |s.place| ==> CloserOk(s, c))
    && (forall r :: 0 <= r < |s.sessions| ==> SessionOk(s, r))
    && (forall j :: j in s.calls ==> CallOk(s, j))
    && TableOk(s)
  }
}
