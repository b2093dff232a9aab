/** Every step of the session lifecycle keeps its invariant. Each step is shown to
    have an effect that is confined to its own call and to the closers and
    sessions it names; one lemma then covers everything else. */
module AcpProofs {
  import opened Text
  import opened AcpSessions

  function HeldBy(s: State, j: nat): set<nat> {
    if j in s.calls then Held(s.calls[j]) else {}
  }

  function DroppedBy(s: State, j: nat): set<nat> {
    if j in s.calls then Dropped(s.calls[j]) else {}
  }

  // ------------------------------------------------------------------- effects

  /** Other calls, and what their switches rely on, are left alone. */
  ghost predicate SparesCalls(s: State, t: State, j: nat) {
    && (forall k :: k != j ==> (k in t.calls <==> k in s.calls))
    && (forall k :: k != j && k in s.calls && k in t.calls ==> t.calls[k] == s.calls[k])
    && s.started <= t.started && |s.place| <= |t.place| && |s.sessions| <= |t.sessions|
    && (forall id :: id in t.registered && t.registered[id] < |s.sessions| ==> RegisteredAs(s, id, t.registered[id]))
    && (forall r :: 0 <= r < |s.sessions| ==> SparesSwitch(s.sessions[r], t.sessions[r], j))
  }

  /** A session under another call's switch keeps it, and gains no turn. */
  ghost predicate SparesSwitch(x: Session, y: Session, j: nat) {
    x.switcher.Some? && x.switcher != Some(j) ==> y.switcher == x.switcher && (y.active == x.active || y.active == None)
  }

  /** Outside the sessions `special`, closers and turns stay, and whatever leaves
      the table is taken over by the call. */
  ghost predicate SparesSessions(s: State, t: State, j: nat, special: set<nat>, moved: set<nat>) {
    && |s.sessions| <= |t.sessions|
    && (forall r :: 0 <= r < |s.sessions| ==> t.sessions[r].closer == s.sessions[r].closer || AsSet(s.sessions[r].closer) <= moved)
    && (forall r :: 0 <= r < |s.sessions| && r !in special ==>
          t.sessions[r].closer == s.sessions[r].closer && t.sessions[r].active == s.sessions[r].active)
    && (forall id :: id in s.registered ==>
          RegisteredAs(t, id, s.registered[id]) || s.registered[id] in DroppedBy(t, j) || s.registered[id] in special)
    && DroppedBy(s, j) <= DroppedBy(t, j) + special
    && (j in s.calls && s.calls[j].Turning? ==> s.calls[j].session in special)
  }

  /** Outside the closers `moved`, every closer stays where it is. */
  ghost predicate SparesClosers(s: State, t: State, j: nat, moved: set<nat>) {
    && |s.place| <= |t.place|
    && (forall c :: 0 <= c < |s.place| && c !in moved ==> t.place[c] == s.place[c] && t.closes[c] == s.closes[c])
    && HeldBy(s, j) <= HeldBy(t, j) + moved
  }

  ghost predicate Spares(s: State, t: State, j: nat, special: set<nat>, moved: set<nat>) {
    SparesCalls(s, t, j) && SparesSessions(s, t, j, special, moved) && SparesClosers(s, t, j, moved)
  }

  ghost predicate Effect(s: State, t: State, j: nat, special: set<nat>, moved: set<nat>) {
    && Spares(s, t, j, special, moved)
    && Settles(s, t, j, special, moved)
    && (j in t.calls ==> CallOk(t, j))
    && TableOk(t)
  }

  /** What moves was the call's own or in a session it names, and it, the sessions
      named and everything new end up in order. */
  ghost predicate Settles(s: State, t: State, j: nat, special: set<nat>, moved: set<nat>) {
    && (forall c :: c in moved && c < |s.place| ==> c in HeldBy(s, j) || OwnedBySpecial(s, special, c))
    && (forall c :: 0 <= c < |t.place| && (c in moved || c >= |s.place|) ==> CloserOk(t, c))
    && (forall r :: 0 <= r < |t.sessions| && (r in special || r >= |s.sessions|) ==> SessionOk(t, r))
  }

  ghost predicate OwnedBySpecial(s: State, special: set<nat>, c: nat) {
    exists r :: r in special && r < |s.sessions| && s.sessions[r].closer == Some(c)
  }

  // ---------------------------------------------- what an effect leaves alone

  /** What moves was with the call itself or in a session it names. */
  lemma MovedFrom(s: State, t: State, j: nat, c: nat, special: set<nat>, moved: set<nat>)
    requires Inv(s) && Effect(s, t, j, special, moved) && c in moved && c < |s.place|
    ensures s.place[c] == WithCall(j) || (s.place[c].InSession? && s.place[c].session in special)
  {
    if c in HeldBy(s, j) {
      assert CallOk(s, j);
    } else {
      var r :| r in special && r < |s.sessions| && s.sessions[r].closer == Some(c);
      assert SessionOk(s, r);
    }
  }

  lemma OtherCall(s: State, t: State, j: nat, k: nat, special: set<nat>, moved: set<nat>)
    requires Inv(s) && Effect(s, t, j, special, moved) && k in t.calls && k != j
    ensures CallOk(t, k)
  {
    var call := s.calls[k];
    assert CallOk(s, k);
    forall c | c in Held(call)
      ensures c < |t.place| && t.place[c] == WithCall(k)
    {
      if c in moved {
        MovedFrom(s, t, j, c, special, moved);
      }
    }
    if InSwitch(call) && RegisteredAs(t, call.id, call.session) {
      assert RegisteredAs(s, call.id, call.session);
      assert SparesSwitch(s.sessions[call.session], t.sessions[call.session], j);
    }
  }

  lemma OtherSession(s: State, t: State, j: nat, r: nat, special: set<nat>, moved: set<nat>)
    requires Inv(s) && Effect(s, t, j, special, moved) && r < |s.sessions| && r !in special
    ensures SessionOk(t, r)
  {
    var x := s.sessions[r];
    assert SessionOk(s, r);
    assert t.sessions[r].closer == x.closer && t.sessions[r].active == x.active;
    if x.closer.Some? {
      SessionKeepsCloser(s, t, j, r, special, moved);
      if IsRegistered(s, r) {
        var id :| RegisteredAs(s, id, r);
        assert RegisteredAs(t, id, r) || r in DroppedBy(t, j);
      } else {
        var k :| k in s.calls && r in Dropped(s.calls[k]);
        assert k in t.calls && r in Dropped(t.calls[k]);
      }
    }
  }

  lemma SessionKeepsCloser(s: State, t: State, j: nat, r: nat, special: set<nat>, moved: set<nat>)
    requires Inv(s) && Effect(s, t, j, special, moved) && r < |s.sessions| && r !in special
    requires s.sessions[r].closer.Some?
    ensures var c := s.sessions[r].closer.value;
            c < |s.place| && t.place[c] == InSession(r)
  {
    var c := s.sessions[r].closer.value;
    assert SessionOk(s, r);
    if c in moved {
      MovedFrom(s, t, j, c, special, moved);
    }
  }

  lemma OtherCloser(s: State, t: State, j: nat, c: nat, special: set<nat>, moved: set<nat>)
    requires Inv(s) && Effect(s, t, j, special, moved) && c < |s.place| && c !in moved
    ensures CloserOk(t, c)
  {
    assert CloserOk(s, c);
    match s.place[c]
    case InSession(r) =>
      assert t.sessions[r].closer == s.sessions[r].closer || AsSet(s.sessions[r].closer) <= moved;
    case WithCall(k) =>
      assert c in HeldBy(s, k);
    case Closed =>
  }

  /** A confined effect keeps the invariant. */
  lemma EffectKeepsInv(s: State, t: State, j: nat, special: set<nat>, moved: set<nat>)
    requires Inv(s) && Effect(s, t, j, special, moved)
    ensures Inv(t)
  {
    forall k | k in t.calls
      ensures CallOk(t, k)
    {
      if k != j {
        OtherCall(s, t, j, k, special, moved);
      }
    }
    forall r | 0 <= r < |t.sessions|
      ensures SessionOk(t, r)
    {
      if r < |s.sessions| && r !in special {
        OtherSession(s, t, j, r, special, moved);
      }
    }
    forall c | 0 <= c < |t.place|
      ensures CloserOk(t, c)
    {
      if c < |s.place| && c !in moved {
        OtherCloser(s, t, j, c, special, moved);
      }
    }
  }

  // --------------------------------------------------------------------- steps

  lemma GoesEffect(s: State, j: nat, call: Option<Call>)
    requires TableOk(s) && j in s.calls && CallOk(s, j) && !s.calls[j].Turning?
    requires Held(s.calls[j]) == (if call.Some? then Held(call.value) else {})
    requires Dropped(s.calls[j]) <= (if call.Some? then Dropped(call.value) else {})
    requires call.Some? ==> CallOk(Goes(s, j, call), j)
    ensures Effect(s, Goes(s, j, call), j, {}, {})
  {
  }

  lemma MakesSpares(s: State, j: nat, made: bool, call: Call)
    requires if j in s.calls then j < s.started && !s.calls[j].Turning? else j == s.started
    requires HeldBy(s, j) <= Held(call) && DroppedBy(s, j) <= Dropped(call)
    ensures Spares(s, Makes(s, j, made, call), j, {}, {})
  {
  }

  lemma MakesEffect(s: State, j: nat, made: bool, call: Call)
    requires TableOk(s) && (if j in s.calls then j < s.started && !s.calls[j].Turning? else j == s.started)
    requires Held(call) == HeldBy(s, j) + AsSet(Fresh(s, made)) && DroppedBy(s, j) <= Dropped(call)
    requires CallOk(Makes(s, j, made, call), j)
    ensures Effect(s, Makes(s, j, made, call), j, {}, {})
  {
    MakesSpares(s, j, made, call);
  }

  lemma WastesEffect(s: State)
    requires TableOk(s) && s.started !in s.calls
    ensures Effect(s, Wastes(s), s.started, {}, {})
  {
  }

  lemma ShutsSpares(s: State, j: nat, c: Option<nat>, call: Option<Call>)
    requires j in s.calls && !s.calls[j].Turning?
    requires Held(s.calls[j]) - AsSet(c) <= (if call.Some? then Held(call.value) else {})
    requires Dropped(s.calls[j]) <= (if call.Some? then Dropped(call.value) else {})
    ensures Spares(s, Shuts(s, j, c, call), j, {}, AsSet(c))
  {
  }

  lemma ShutsEffect(s: State, j: nat, c: Option<nat>, call: Option<Call>)
    requires TableOk(s) && j in s.calls && !s.calls[j].Turning?
    requires AsSet(c) <= Held(s.calls[j]) && (c.Some? ==> c.value < |s.place| && CloserOk(s, c.value) && s.place[c.value] == WithCall(j))
    requires Held(s.calls[j]) - AsSet(c) == (if call.Some? then Held(call.value) else {})
    requires Dropped(s.calls[j]) <= (if call.Some? then Dropped(call.value) else {})
    requires call.Some? ==> CallOk(Shuts(s, j, c, call), j)
    ensures Effect(s, Shuts(s, j, c, call), j, {}, AsSet(c))
  {
    ShutsSpares(s, j, c, call);
    ShutsSettles(s, j, c, call);
  }

  lemma ShutsSettles(s: State, j: nat, c: Option<nat>, call: Option<Call>)
    requires j in s.calls && AsSet(c) <= Held(s.calls[j])
    requires c.Some? ==> c.value < |s.place| && CloserOk(s, c.value) && s.place[c.value] == WithCall(j)
    ensures Settles(s, Shuts(s, j, c, call), j, {}, AsSet(c))
  {
  }

  lemma InstallsSpares(s: State, j: nat, id: string, c: Option<nat>, call: Option<Call>)
    requires TableOk(s) && j in s.calls && !s.calls[j].Turning?
    requires AsSet(c) == Held(s.calls[j]) && Dropped(s.calls[j]) == {}
    requires id in s.registered ==> call.Some? && s.registered[id] in Dropped(call.value)
    ensures Spares(s, Installs(s, j, id, c, call), j, {}, AsSet(c))
  {
  }

  lemma InstallsNew(s: State, j: nat, id: string, c: Option<nat>, call: Option<Call>)
    requires TableOk(s)
    requires c.Some? ==> c.value < |s.place| && CloserOk(s, c.value) && s.place[c.value] == WithCall(j)
    ensures var t := Installs(s, j, id, c, call);
            SessionOk(t, |s.sessions|) && TableOk(t) && (c.Some? ==> CloserOk(t, c.value))
  {
    assert RegisteredAs(Installs(s, j, id, c, call), id, |s.sessions|);
  }

  lemma InstallsEffect(s: State, j: nat, id: string, c: Option<nat>, call: Option<Call>)
    requires TableOk(s) && j in s.calls && !s.calls[j].Turning?
    requires AsSet(c) == Held(s.calls[j]) && Dropped(s.calls[j]) == {}
    requires c.Some? ==> c.value < |s.place| && CloserOk(s, c.value) && s.place[c.value] == WithCall(j)
    requires id in s.registered ==> call.Some? && s.registered[id] in Dropped(call.value)
    requires call.Some? ==> CallOk(Installs(s, j, id, c, call), j)
    ensures Effect(s, Installs(s, j, id, c, call), j, {}, AsSet(c))
  {
    InstallsSpares(s, j, id, c, call);
    InstallsNew(s, j, id, c, call);
  }

  lemma TakesEffect(s: State, j: nat, r: nat, call: Call)
    requires TableOk(s) && j in s.calls && CallOk(s, j) && !s.calls[j].Turning? && r < |s.sessions| && SessionOk(s, r)
    requires Held(s.calls[j]) == {} && Held(call) == AsSet(s.sessions[r].closer) && Dropped(s.calls[j]) <= Dropped(call) + {r}
    requires s.sessions[r].closer.Some? && s.sessions[r].closer.value < |s.place| ==> CloserOk(s, s.sessions[r].closer.value)
    requires s.sessions[r].active != Some(j)
    requires CallOk(TakesFrom(s, j, r, call), j)
    ensures Effect(s, TakesFrom(s, j, r, call), j, {r}, AsSet(s.sessions[r].closer))
  {
    assert forall c :: c in AsSet(s.sessions[r].closer) ==> r in {r} && s.sessions[r].closer == Some(c);
  }

  lemma RemovesEffect(s: State, j: nat, ids: set<string>, call: Call)
    requires TableOk(s) && (if j in s.calls then CallOk(s, j) && !s.calls[j].Turning? else j == s.started)
    requires HeldBy(s, j) == {} && Held(call) == {} && DroppedBy(s, j) <= Dropped(call)
    requires forall id :: id in ids && id in s.registered ==> s.registered[id] in Dropped(call)
    requires CallOk(Removes(s, j, ids, call), j)
    ensures Effect(s, Removes(s, j, ids, call), j, {}, {})
  {
  }

  /** A turn starts or ends in the session. */
  lemma TurnEffect(s: State, j: nat, r: nat, active: Option<nat>, call: Call)
    requires TableOk(s) && r < |s.sessions| && SessionOk(s, r)
    requires if j in s.calls then j < s.started && s.calls[j] == Turning(r) else j == s.started
    requires Held(call) == {} && Dropped(call) == {}
    requires active == None || active == s.sessions[r].active || (active == Some(j) && s.sessions[r].switcher == None)
    requires active == Some(j) ==> call == Turning(r)
    requires active.Some? && active != Some(j) ==> active == s.sessions[r].active
    requires CallOk(Revised(s, j, r, s.sessions[r].(active := active), Some(call)), j)
    ensures Effect(s, Revised(s, j, r, s.sessions[r].(active := active), Some(call)), j, {r}, {})
  {
    TurnSession(s, j, r, active, call);
    TurnSpares(s, j, r, active, call);
  }

  lemma TurnSpares(s: State, j: nat, r: nat, active: Option<nat>, call: Call)
    requires TableOk(s) && r < |s.sessions|
    requires if j in s.calls then j < s.started && s.calls[j] == Turning(r) else j == s.started
    requires active == None || active == s.sessions[r].active || (active == Some(j) && s.sessions[r].switcher == None)
    ensures Spares(s, Revised(s, j, r, s.sessions[r].(active := active), Some(call)), j, {r}, {})
  {
  }

  lemma TurnSession(s: State, j: nat, r: nat, active: Option<nat>, call: Call)
    requires r < |s.sessions| && SessionOk(s, r) && (j in s.calls ==> Dropped(s.calls[j]) == {})
    requires active == Some(j) ==> call == Turning(r)
    requires active.Some? && active != Some(j) ==> active == s.sessions[r].active
    ensures SessionOk(Revised(s, j, r, s.sessions[r].(active := active), Some(call)), r)
  {
    var t := Revised(s, j, r, s.sessions[r].(active := active), Some(call));
    if s.sessions[r].closer.Some? {
      if IsRegistered(s, r) {
        var id :| RegisteredAs(s, id, r);
        assert RegisteredAs(t, id, r);
      } else {
        var k :| k in s.calls && r in Dropped(s.calls[k]);
        assert k in t.calls && r in Dropped(t.calls[k]);
      }
    }
  }

  /** A switch starts or is given up. */
  lemma SwitchEffect(s: State, j: nat, r: nat, switcher: Option<nat>, call: Option<Call>)
    requires TableOk(s) && r < |s.sessions| && (s.sessions[r].switcher == None || s.sessions[r].switcher == Some(j))
    requires if j in s.calls then j < s.started && InSwitch(s.calls[j]) && Held(s.calls[j]) == {} else j == s.started
    requires call.Some? ==> Held(call.value) == {} && Dropped(call.value) == {}
    requires call.Some? ==> CallOk(Revised(s, j, r, s.sessions[r].(switcher := switcher), call), j)
    ensures Effect(s, Revised(s, j, r, s.sessions[r].(switcher := switcher), call), j, {}, {})
  {
  }

  lemma SwapsSpares(s: State, j: nat, r: nat, c: Option<nat>)
    requires TableOk(s) && r < |s.sessions| && s.sessions[r].switcher == Some(j)
    requires j in s.calls && s.calls[j].SwitchMade? && s.calls[j].made == c && s.calls[j].session == r
    ensures Spares(s, Swaps(s, j, r, c), j, {r}, AsSet(c) + AsSet(s.sessions[r].closer))
  {
  }

  lemma SwapsPlaces(s: State, j: nat, r: nat, c: Option<nat>, id: string)
    requires TableOk(s) && r < |s.sessions| && SessionOk(s, r) && RegisteredAs(s, id, r)
    requires j in s.calls && s.calls[j].SwitchMade? && s.calls[j].made == c && j < s.started
    requires c.Some? ==> c.value < |s.place| && s.place[c.value] == WithCall(j) && CloserOk(s, c.value)
    requires s.sessions[r].closer.Some? ==> CloserOk(s, s.sessions[r].closer.value)
    ensures var t := Swaps(s, j, r, c);
            && SessionOk(t, r) && CallOk(t, j) && TableOk(t)
            && (c.Some? ==> CloserOk(t, c.value))
            && (s.sessions[r].closer.Some? ==> CloserOk(t, s.sessions[r].closer.value))
  {
    assert RegisteredAs(Swaps(s, j, r, c), id, r);
  }

  lemma SwapsEffect(s: State, j: nat, r: nat, c: Option<nat>, id: string)
    requires TableOk(s) && r < |s.sessions| && SessionOk(s, r) && RegisteredAs(s, id, r) && s.sessions[r].switcher == Some(j)
    requires j in s.calls && s.calls[j].SwitchMade? && s.calls[j].made == c && s.calls[j].session == r && j < s.started
    requires c.Some? ==> c.value < |s.place| && s.place[c.value] == WithCall(j) && CloserOk(s, c.value)
    requires s.sessions[r].closer.Some? ==> CloserOk(s, s.sessions[r].closer.value)
    ensures Effect(s, Swaps(s, j, r, c), j, {r}, AsSet(c) + AsSet(s.sessions[r].closer))
  {
    SwapsSpares(s, j, r, c);
    SwapsPlaces(s, j, r, c, id);
    assert forall d :: d in AsSet(s.sessions[r].closer) ==> r in {r} && s.sessions[r].closer == Some(d);
  }
}
