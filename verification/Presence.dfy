/**
  Who is in a room: participants, their connections, the slots they take and
  how they are lost. Times are positive integers; 0 is Go's zero time.
*/
module Presence {
  import opened ChangeSets

  type Pid = string

  datatype Access = Creator | Collaborator | Viewer

  datatype Connection = Connection(generation: nat, lastSeen: int)

  /** `serial` tells records of the same id apart, as their addresses do. */
  datatype Participant = Participant(
    serial: nat, session: string, access: Access, nickname: string,
    connections: map<string, Connection>, nextGeneration: nat, disconnectedAt: int)

  datatype Crowd = Crowd(
    participants: map<Pid, Participant>, sessions: map<string, Pid>, names: map<string, Pid>, created: nat,
      closed: bool)

  /** Limits and opaque functions of a room: the participant id of a credential and the key of a name. */
  datatype Rules = Rules(
    maxWriters: nat, maxViewers: nat, maxParticipants: nat, maxConnections: nat,
    timeout: nat, grace: nat, hasCreatorHash: bool, pidOf: string -> Pid, nameKey: string -> string)
  {
    /** What the options are validated for; credentials have distinct participant ids. */
    ghost predicate Proper() {
      && maxWriters >= 1 && maxConnections >= 1 && maxWriters + maxViewers == maxParticipants
      && forall a: string, b: string :: pidOf(a) == pidOf(b) ==> a == b
    }
  }

  datatype Identity = Identity(credential: string, connectionId: string, preferredName: string)

  datatype Session = Session(pid: Pid, connectionId: string, generation: nat)

  datatype Refusal =
    | RoomExpired | SessionActive | ConnectionLimit | ParticipantLimit | Conflict | NoName | NotFound | Inactive
    | NameTaken

  datatype Outcome = Joined(session: Session, reconnected: bool) | Refused(reason: Refusal)

  // ----- Counting slots -----

  ghost function Having(participants: map<Pid, Participant>, access: set<Access>): set<Pid> {
    set id | id in participants && participants[id].access in access
  }

  ghost function Writers(participants: map<Pid, Participant>): nat {
    |Having(participants, {Creator, Collaborator})|
  }

  ghost function Viewers(participants: map<Pid, Participant>): nat {
    |Having(participants, {Viewer})|
  }

  ghost function Collaborators(participants: map<Pid, Participant>): nat {
    |Having(participants, {Collaborator})|
  }

  ghost predicate HasCreator(participants: map<Pid, Participant>) {
    exists id :: id in participants && participants[id].access == Creator
  }

  // ----- Losing connections -----

  /** The latest time any of the connections was seen. */
  ghost function LatestSeen(connections: map<string, Connection>): (t: int)
    requires connections != map[]
    ensures exists c :: c in connections && connections[c].lastSeen == t
    ensures forall c :: c in connections ==> connections[c].lastSeen <= t
    decreases |connections|
  {
    var c :| c in connections;
    var rest := connections - {c};
    if rest == map[] then
      assert forall d :: d in connections ==> d == c || d in rest;
      connections[c].lastSeen
    else
      var t := LatestSeen(rest);
      assert forall d :: d in connections ==> d == c || d in rest;
      if t < connections[c].lastSeen then connections[c].lastSeen else t
  }

  ghost function Alive(connections: map<string, Connection>, now: int, rules: Rules): map<string, Connection> {
    map c | c in connections && now - connections[c].lastSeen <= rules.timeout :: connections[c]
  }

  /** Silent connections are dropped; losing the last one records when the silence became a loss. */
  ghost function ExpiredParticipant(p: Participant, now: int, rules: Rules): Participant {
    var alive := Alive(p.connections, now, rules);
    if p.connections != map[] && alive == map[]
    then p.(connections := map[], disconnectedAt := LatestSeen(p.connections) + rules.timeout)
    else p.(connections := alive)
  }

  ghost function Expired(c: Crowd, now: int, rules: Rules): Crowd {
    c.(participants := map id | id in c.participants :: ExpiredParticipant(c.participants[id], now, rules))
  }

  ghost predicate Lost(p: Participant, now: int, rules: Rules) {
    p.connections == map[] && p.disconnectedAt != 0 && now - p.disconnectedAt > rules.grace
  }

  /** Participants lost longer than the grace period are forgotten. */
  ghost function Pruned(c: Crowd, now: int, rules: Rules): Crowd {
    c.(participants := map id | id in c.participants && !Lost(c.participants[id], now, rules) :: c.participants[id],
       sessions := map s | s in c.sessions
         && !(c.sessions[s] in c.participants && Lost(c.participants[c.sessions[s]], now, rules)) :: c.sessions[s],
       names := map n | n in c.names
         && !(c.names[n] in c.participants && Lost(c.participants[c.names[n]], now, rules)) :: c.names[n])
  }

  // ----- Operations -----

  ghost function AccessFor(c: Crowd, creator: bool, rules: Rules): Result<Access> {
    var writers := Writers(c.participants);
    if creator then (if writers >= rules.maxWriters then Err else Ok(Creator))
    else
      var limit := if rules.hasCreatorHash && !HasCreator(c.participants)
        then rules.maxWriters - 1 else rules.maxWriters;
      if writers < limit then Ok(Collaborator)
      else if Viewers(c.participants) >= rules.maxViewers then Err
      else Ok(Viewer)
  }

  ghost function Connected(p: Participant, connectionId: string, now: int): Participant {
    p.(nextGeneration := p.nextGeneration + 1, disconnectedAt := 0,
       connections := p.connections[connectionId := Connection(p.nextGeneration + 1, now)])
  }

  /** A participant who is still known joins again with another connection; a creator's capability upgrades it. */
  ghost function Rejoined(
      c: Crowd, id: Pid, connectionId: string, creator: bool, now: int, rules: Rules): (Crowd, Outcome)
    requires id in c.participants
  {
    var p := c.participants[id];
    if connectionId in p.connections then (c, Refused(SessionActive))
    else if |p.connections| >= rules.maxConnections then (c, Refused(ConnectionLimit))
    else if creator && p.access == Viewer && Writers(c.participants) >= rules.maxWriters
    then (c, Refused(ParticipantLimit))
    else
      var joined := Connected(p.(access := if creator then Creator else p.access), connectionId, now);
      (c.(participants := c.participants[id := joined]), Joined(Session(id, connectionId, joined.nextGeneration), true))
  }

  /** A newcomer; `generated` is what the name generator offers when the preferred name is taken. */
  ghost function Entered(
      c: Crowd, identity: Identity, creator: bool, generated: Result<string>, now: int, rules: Rules)
      : (Crowd, Outcome)
  {
    var access := AccessFor(c, creator, rules);
    var id := rules.pidOf(identity.credential);
    var preferred := identity.preferredName != "" && rules.nameKey(identity.preferredName) !in c.names;
    if |c.participants| >= rules.maxParticipants || access.Err? then (c, Refused(ParticipantLimit))
    else if id in c.participants then (c, Refused(Conflict))
    else if !preferred && generated.Err? then (c, Refused(NoName))
    else
      var nickname := if preferred then identity.preferredName else generated.value;
      var p := Participant(c.created, identity.credential, access.value, nickname,
        map[identity.connectionId := Connection(1, now)], 1, 0);
      (c.(participants := c.participants[id := p], sessions := c.sessions[identity.credential := id],
          names := c.names[rules.nameKey(nickname) := id], created := c.created + 1),
       Joined(Session(id, identity.connectionId, 1), false))
  }

  ghost function Join(
      c: Crowd, identity: Identity, creator: bool, generated: Result<string>, expired: bool, now: int,
      rules: Rules): (Crowd, Outcome) {
    if c.closed || expired then (c.(closed := true), Refused(RoomExpired))
    else
      var d := Pruned(Expired(c, now, rules), now, rules);
      if identity.credential in d.sessions && d.sessions[identity.credential] in d.participants
      then Rejoined(d, d.sessions[identity.credential], identity.connectionId, creator, now, rules)
      else Entered(d.(sessions := d.sessions - {identity.credential}), identity, creator, generated, now, rules)
  }

  predicate MayAct(c: Crowd, session: Session) {
    && !c.closed && session.pid in c.participants
    && session.connectionId in c.participants[session.pid].connections
    && c.participants[session.pid].connections[session.connectionId].generation == session.generation
  }

  ghost function Seen(c: Crowd, session: Session, now: int): Crowd
    requires MayAct(c, session)
  {
    var p := c.participants[session.pid];
    c.(participants := c.participants[session.pid :=
      p.(connections := p.connections[session.connectionId := p.connections[session.connectionId].(lastSeen := now)])])
  }

  /** Every action of a session first shows that its connection is current. */
  ghost function Touch(c: Crowd, session: Session, expired: bool, now: int): Crowd {
    if c.closed || expired then c.(closed := true) else if !MayAct(c, session) then c else Seen(c, session, now)
  }

  ghost function Renamed(c: Crowd, pid: Pid, name: string, rules: Rules): Crowd
    requires pid in c.participants
  {
    var p, key := c.participants[pid], rules.nameKey(name);
    if key in c.names && c.names[key] != pid then c
    else
      c.(participants := c.participants[pid := p.(nickname := name)],
         names := (c.names - {rules.nameKey(p.nickname)})[key := pid])
  }

  ghost function Rename(
      c: Crowd, session: Session, name: string, valid: bool, expired: bool, now: int, rules: Rules): Crowd {
    var touched := Touch(c, session, expired, now);
    if c.closed || expired || !MayAct(c, session) || !valid then touched
    else Renamed(touched, session.pid, name, rules)
  }

  ghost function Disconnect(c: Crowd, session: Session, now: int): Crowd {
    if !(session.pid in c.participants && session.connectionId in c.participants[session.pid].connections
         && c.participants[session.pid].connections[session.connectionId].generation == session.generation) then c
    else
      var p := c.participants[session.pid];
      var rest := p.connections - {session.connectionId};
      c.(participants := c.participants[session.pid :=
        p.(connections := rest, disconnectedAt := if rest == map[] then now else p.disconnectedAt)])
  }

  ghost function Closed(c: Crowd): Crowd {
    c.(closed := true, participants := map id | id in c.participants :: c.participants[id].(connections := map[]))
  }

  ghost function Sweep(c: Crowd, expired: bool, now: int, rules: Rules): Crowd {
    if c.closed then c else if expired then Closed(c) else Pruned(Expired(c, now, rules), now, rules)
  }

  /** Whether the hub may drop the room: lost participants are forgotten first. */
  ghost function Evicting(c: Crowd, now: int, rules: Rules): Crowd {
    if c.closed then c else Pruned(c, now, rules)
  }

  // ----- Invariant -----

  /** Connections have past generations, and a participant has a loss time exactly when it has no connection. */
  ghost predicate Sane(p: Participant, closed: bool, rules: Rules) {
    && |p.connections| <= rules.maxConnections
    && (forall k :: k in p.connections ==>
              1 <= p.connections[k].generation <= p.nextGeneration && p.connections[k].lastSeen > 0)
    && (!closed ==> (p.connections == map[] <==> p.disconnectedAt != 0))
  }

  ghost predicate AllSane(c: Crowd, rules: Rules) {
    forall id :: id in c.participants ==> Sane(c.participants[id], c.closed, rules)
  }

  /** A participant's session and name lead back to it. */
  ghost predicate LeadsBack(c: Crowd, id: Pid, rules: Rules)
    requires id in c.participants
  {
    var p := c.participants[id];
    && id == rules.pidOf(p.session) && p.serial < c.created
    && p.session in c.sessions && c.sessions[p.session] == id
    && rules.nameKey(p.nickname) in c.names && c.names[rules.nameKey(p.nickname)] == id
  }

  /** Participants, sessions and names are mutually inverse. */
  ghost predicate Linked(c: Crowd, rules: Rules) {
    && (forall id :: id in c.participants ==> LeadsBack(c, id, rules))
    && (forall s :: s in c.sessions ==> c.sessions[s] in c.participants && c.participants[c.sessions[s]].session == s)
    && (forall n :: n in c.names ==>
              c.names[n] in c.participants && rules.nameKey(c.participants[c.names[n]].nickname) == n)
  }

  /** Slots stay within their limits, and with a creator hash one writer slot is never taken by a collaborator. */
  ghost predicate Spacious(participants: map<Pid, Participant>, rules: Rules) {
    && Writers(participants) <= rules.maxWriters && Viewers(participants) <= rules.maxViewers
    && |participants| <= rules.maxParticipants
    && (rules.hasCreatorHash ==> Collaborators(participants) <= rules.maxWriters - 1)
    && (!rules.hasCreatorHash ==> !HasCreator(participants))
  }

  ghost predicate Valid(c: Crowd, rules: Rules) {
    Linked(c, rules) && AllSane(c, rules) && Spacious(c.participants, rules)
  }

  // ----- Counting -----

  lemma HavingSubset(participants: map<Pid, Participant>, rest: map<Pid, Participant>, access: set<Access>)
    requires forall id :: id in rest ==> id in participants && rest[id].access == participants[id].access
    ensures |Having(rest, access)| <= |Having(participants, access)| && |rest| <= |participants|
  {
    Fewer(Having(rest, access), Having(participants, access));
    Fewer(rest.Keys, participants.Keys);
  }

  lemma Fewer<T>(a: set<T>, b: set<T>)
    requires a <= b
    ensures |a| <= |b|
  {
    assert b == a + (b - a);
  }

  lemma FewerSpacious(participants: map<Pid, Participant>, rest: map<Pid, Participant>, rules: Rules)
    requires Spacious(participants, rules)
    requires forall id :: id in rest ==> id in participants && rest[id].access == participants[id].access
    ensures Spacious(rest, rules)
  {
    HavingSubset(participants, rest, {Creator, Collaborator});
    HavingSubset(participants, rest, {Viewer});
    HavingSubset(participants, rest, {Collaborator});
  }

  lemma WritersAndViewers(participants: map<Pid, Participant>)
    ensures Writers(participants) + Viewers(participants) == |participants|
  {
    var writers, viewers := Having(participants, {Creator, Collaborator}), Having(participants, {Viewer});
    forall id | id in participants
      ensures id in writers || id in viewers
    {
      var access := participants[id].access;
      assert access.Creator? || access.Collaborator? || access.Viewer?;
    }
    assert writers + viewers == participants.Keys;
    Disjoint(writers, viewers);
  }

  lemma Disjoint<T>(a: set<T>, b: set<T>)
    requires a !! b
    ensures |a + b| == |a| + |b|
  {
  }

  lemma CollaboratorsWrite(participants: map<Pid, Participant>)
    ensures HasCreator(participants) ==> Collaborators(participants) < Writers(participants)
    ensures !HasCreator(participants) ==> Collaborators(participants) == Writers(participants)
  {
    var writers, collaborators := Having(participants, {Creator, Collaborator}), Having(participants, {Collaborator});
    if HasCreator(participants) {
      var id :| id in participants && participants[id].access == Creator;
      Disjoint(collaborators, {id});
      Fewer(collaborators + {id}, writers);
    } else {
      assert collaborators == writers;
    }
  }

  /** Writers and viewers are all participants, and collaborators are the writers other than creators. */
  lemma Slots(participants: map<Pid, Participant>)
    ensures Writers(participants) + Viewers(participants) == |participants|
    ensures HasCreator(participants) ==> Collaborators(participants) < Writers(participants)
    ensures !HasCreator(participants) ==> Collaborators(participants) == Writers(participants)
  {
    WritersAndViewers(participants);
    CollaboratorsWrite(participants);
  }

  lemma HavingUpdated(participants: map<Pid, Participant>, id: Pid, p: Participant, access: set<Access>)
    ensures Having(participants[id := p], access)
         == (if p.access in access then Having(participants, access) + {id} else Having(participants, access) - {id})
  {
  }

  /** Somebody else takes or changes to a writer slot. */
  lemma WriterSpacious(participants: map<Pid, Participant>, id: Pid, p: Participant, rules: Rules)
    requires rules.Proper() && Spacious(participants, rules) && p.access == Creator && rules.hasCreatorHash
    requires (id in participants && participants[id].access != Viewer) || Writers(participants) < rules.maxWriters
    ensures Spacious(participants[id := p], rules)
  {
    var after := participants[id := p];
    HavingUpdated(participants, id, p, {Creator, Collaborator});
    HavingUpdated(participants, id, p, {Viewer});
    HavingUpdated(participants, id, p, {Collaborator});
    Fewer(Having(after, {Viewer}), Having(participants, {Viewer}));
    Fewer(Having(after, {Collaborator}), Having(participants, {Collaborator}));
    if id in participants && participants[id].access != Viewer {
      assert id in Having(participants, {Creator, Collaborator});
      assert Having(after, {Creator, Collaborator}) == Having(participants, {Creator, Collaborator});
    }
    Slots(after);
  }

  /** A newcomer takes a slot that is free for it. */
  lemma NewcomerSpacious(participants: map<Pid, Participant>, id: Pid, p: Participant, rules: Rules)
    requires rules.Proper() && Spacious(participants, rules) && id !in participants && p.access != Creator
    requires p.access == Viewer ==> Viewers(participants) < rules.maxViewers
    requires p.access == Collaborator ==>
      Writers(participants) < (if rules.hasCreatorHash && !HasCreator(participants)
        then rules.maxWriters - 1 else rules.maxWriters)
    ensures Spacious(participants[id := p], rules)
  {
    var after := participants[id := p];
    HavingUpdated(participants, id, p, {Creator, Collaborator});
    HavingUpdated(participants, id, p, {Viewer});
    HavingUpdated(participants, id, p, {Collaborator});
    Slots(participants);
    Slots(after);
    assert HasCreator(after) ==> HasCreator(participants);
  }

  // ----- Every operation keeps the invariant -----

  /** Participants keep their sessions, names and records. */
  lemma LinksKept(c: Crowd, d: Crowd, rules: Rules)
    requires Linked(c, rules) && d.sessions == c.sessions && d.names == c.names && d.created == c.created
    requires d.participants.Keys == c.participants.Keys
    requires forall id :: id in c.participants ==> SameRecord(c.participants[id], d.participants[id])
    ensures Linked(d, rules)
  {
    forall id | id in d.participants
      ensures LeadsBack(d, id, rules)
    {
      assert LeadsBack(c, id, rules) && SameRecord(c.participants[id], d.participants[id]);
    }
    assert forall id :: id in c.participants ==> SameRecord(c.participants[id], d.participants[id]);
  }

  ghost predicate SameRecord(p: Participant, q: Participant) {
    p.session == q.session && p.nickname == q.nickname && p.serial == q.serial
  }

  lemma ExpiredKeeps(c: Crowd, now: int, rules: Rules)
    requires Valid(c, rules) && !c.closed
    ensures Valid(Expired(c, now, rules), rules)
  {
    hide Spacious, Linked, Sane, ExpiredParticipant;
    var d := Expired(c, now, rules);
    forall id | id in c.participants
      ensures SameRecord(c.participants[id], d.participants[id])
      ensures d.participants[id].access == c.participants[id].access
      ensures Sane(d.participants[id], false, rules)
    {
      ExpiredSame(c.participants[id], now, rules);
      ExpiredSane(c.participants[id], now, rules);
    }
    FewerSpacious(c.participants, d.participants, rules);
    LinksKept(c, d, rules);
  }

  lemma ExpiredSame(p: Participant, now: int, rules: Rules)
    ensures SameRecord(p, ExpiredParticipant(p, now, rules)) && ExpiredParticipant(p, now, rules).access == p.access
  {
  }

  lemma ExpiredSane(p: Participant, now: int, rules: Rules)
    requires Sane(p, false, rules)
    ensures Sane(ExpiredParticipant(p, now, rules), false, rules)
  {
    Fewer(Alive(p.connections, now, rules).Keys, p.connections.Keys);
  }

  lemma PrunedLinked(c: Crowd, now: int, rules: Rules)
    requires Linked(c, rules)
    ensures Linked(Pruned(c, now, rules), rules)
  {
    hide Lost;
    var d := Pruned(c, now, rules);
    forall id | id in d.participants
      ensures LeadsBack(d, id, rules)
    {
      assert LeadsBack(c, id, rules);
    }
    forall s | s in d.sessions
      ensures d.sessions[s] in d.participants && d.participants[d.sessions[s]].session == s
    {
      assert c.sessions[s] in c.participants;
    }
    forall n | n in d.names
      ensures d.names[n] in d.participants && rules.nameKey(d.participants[d.names[n]].nickname) == n
    {
      assert c.names[n] in c.participants;
    }
  }

  lemma PrunedKeeps(c: Crowd, now: int, rules: Rules)
    requires Valid(c, rules)
    ensures Valid(Pruned(c, now, rules), rules)
  {
    hide Spacious, Linked, Sane, Lost;
    PrunedLinked(c, now, rules);
    FewerSpacious(c.participants, Pruned(c, now, rules).participants, rules);
  }

  lemma ConnectedSane(p: Participant, connectionId: string, now: int, rules: Rules)
    requires Sane(p, false, rules) && now > 0 && connectionId !in p.connections
    requires |p.connections| < rules.maxConnections
    ensures Sane(Connected(p, connectionId, now), false, rules)
  {
    var joined := Connected(p, connectionId, now);
    assert joined.connections.Keys == p.connections.Keys + {connectionId};
    assert connectionId in joined.connections;
  }

  lemma RejoinedKeeps(c: Crowd, id: Pid, connectionId: string, creator: bool, now: int, rules: Rules)
    requires Valid(c, rules) && rules.Proper() && !c.closed && id in c.participants && now > 0
    requires (creator ==> rules.hasCreatorHash)
    ensures Valid(Rejoined(c, id, connectionId, creator, now, rules).0, rules)
  {
    hide Spacious, Linked, Sane;
    var (d, outcome) := Rejoined(c, id, connectionId, creator, now, rules);
    if outcome.Joined? {
      var p := c.participants[id].(access := if creator then Creator else c.participants[id].access);
      assert Sane(p, false, rules) by { SaneAnyAccess(c.participants[id], p, rules); }
      ConnectedSane(p, connectionId, now, rules);
      LinksKept(c, d, rules);
      if creator {
        WriterSpacious(c.participants, id, d.participants[id], rules);
      } else {
        FewerSpacious(c.participants, d.participants, rules);
      }
    }
  }

  lemma SaneAnyAccess(p: Participant, q: Participant, rules: Rules)
    requires Sane(p, false, rules) && q == p.(access := q.access)
    ensures Sane(q, false, rules)
  {
  }

  ghost predicate NameFree(c: Crowd, generated: Result<string>, rules: Rules) {
    generated.Ok? ==> rules.nameKey(generated.value) !in c.names
  }

  lemma EnteredLinked(c: Crowd, identity: Identity, creator: bool, generated: Result<string>, now: int, rules: Rules)
    requires Linked(c, rules) && NameFree(c, generated, rules) && identity.credential !in c.sessions
    ensures Linked(Entered(c, identity, creator, generated, now, rules).0, rules)
  {
    hide AccessFor, Linked;
    var (d, outcome) := Entered(c, identity, creator, generated, now, rules);
    if outcome.Joined? {
      var id := outcome.session.pid;
      LinkedMore(c, id, d.participants[id], rules);
    }
  }

  lemma LinkedMore(c: Crowd, id: Pid, p: Participant, rules: Rules)
    requires Linked(c, rules) && id !in c.participants && id == rules.pidOf(p.session) && p.serial == c.created
    requires p.session !in c.sessions && rules.nameKey(p.nickname) !in c.names
    ensures
      var participants, sessions := c.participants[id := p], c.sessions[p.session := id];
      var names := c.names[rules.nameKey(p.nickname) := id];
      Linked(Crowd(participants, sessions, names, c.created + 1, c.closed), rules)
  {
    var participants, sessions := c.participants[id := p], c.sessions[p.session := id];
    var names := c.names[rules.nameKey(p.nickname) := id];
    var d := Crowd(participants, sessions, names, c.created + 1, c.closed);
    forall other | other in d.participants
      ensures LeadsBack(d, other, rules)
    {
      assert other != id ==> LeadsBack(c, other, rules);
    }
  }

  /** A newcomer's record, and what makes room for it. */
  lemma EnteredFacts(c: Crowd, identity: Identity, creator: bool, generated: Result<string>, now: int, rules: Rules)
    requires Entered(c, identity, creator, generated, now, rules).1.Joined?
    ensures
      var (d, outcome) := Entered(c, identity, creator, generated, now, rules);
      var id := outcome.session.pid;
      && outcome.session == Session(id, identity.connectionId, 1)
      && id !in c.participants && id in d.participants && d.participants == c.participants[id := d.participants[id]]
      && d.closed == c.closed && d.created == c.created + 1
      && var p := d.participants[id];
         && p.serial == c.created && p.connections == map[identity.connectionId := Connection(1, now)]
         && p.nextGeneration == 1
         && p.disconnectedAt == 0 && AccessFor(c, creator, rules) == Ok(p.access)
  {
    hide AccessFor;
  }

  lemma NotEntered(c: Crowd, identity: Identity, creator: bool, generated: Result<string>, now: int, rules: Rules)
    requires !Entered(c, identity, creator, generated, now, rules).1.Joined?
    ensures Entered(c, identity, creator, generated, now, rules).0 == c
  {
    hide AccessFor;
  }

  lemma EnteredKeeps(c: Crowd, identity: Identity, creator: bool, generated: Result<string>, now: int, rules: Rules)
    requires Valid(c, rules) && rules.Proper() && !c.closed && now > 0 && (creator ==> rules.hasCreatorHash)
    requires NameFree(c, generated, rules)
    requires identity.credential !in c.sessions
    ensures Valid(Entered(c, identity, creator, generated, now, rules).0, rules)
  {
    hide Spacious, Linked, NameFree, Entered, Sane;
    EnteredLinked(c, identity, creator, generated, now, rules);
    var (d, outcome) := Entered(c, identity, creator, generated, now, rules);
    if outcome.Joined? {
      EnteredFacts(c, identity, creator, generated, now, rules);
      var p := d.participants[outcome.session.pid];
      NewcomerSane(p, identity.connectionId, now, rules);
      if creator {
        WriterSpacious(c.participants, outcome.session.pid, p, rules);
      } else {
        NewcomerSpacious(c.participants, outcome.session.pid, p, rules);
      }
    } else {
      NotEntered(c, identity, creator, generated, now, rules);
    }
  }

  lemma NewcomerSane(p: Participant, connectionId: string, now: int, rules: Rules)
    requires rules.Proper() && now > 0 && p.connections == map[connectionId := Connection(1, now)]
    requires p.nextGeneration == 1 && p.disconnectedAt == 0
    ensures Sane(p, false, rules)
  {
    assert connectionId in p.connections && |p.connections| == 1;
  }

  lemma JoinKeeps(
      c: Crowd, identity: Identity, creator: bool, generated: Result<string>, expired: bool, now: int, rules: Rules)
    requires Valid(c, rules) && rules.Proper() && now > 0 && (creator ==> rules.hasCreatorHash)
    requires NameFree(Pruned(Expired(c, now, rules), now, rules), generated, rules)
    ensures Valid(Join(c, identity, creator, generated, expired, now, rules).0, rules)
  {
    hide Expired, Pruned, Rejoined, Entered, Valid, NameFree;
    if c.closed || expired {
      ClosingKeeps(c, rules);
    } else {
      ExpiredKeeps(c, now, rules);
      OpenStays(c, now, rules);
      var e := Expired(c, now, rules);
      OpenStays(e, now, rules);
      PrunedKeeps(e, now, rules);
      var d := Pruned(e, now, rules);
      SessionsLead(d, rules);
      if identity.credential in d.sessions {
        RejoinedKeeps(d, d.sessions[identity.credential], identity.connectionId, creator, now, rules);
      } else {
        assert d.sessions - {identity.credential} == d.sessions;
        assert d.(sessions := d.sessions - {identity.credential}) == d;
        EnteredKeeps(d, identity, creator, generated, now, rules);
      }
    }
  }

  lemma SessionsLead(c: Crowd, rules: Rules)
    requires Valid(c, rules)
    ensures forall s :: s in c.sessions ==> c.sessions[s] in c.participants
  {
  }

  lemma OpenStays(c: Crowd, now: int, rules: Rules)
    ensures Expired(c, now, rules).closed == c.closed && Pruned(c, now, rules).closed == c.closed
  {
  }

  lemma ClosedSane(p: Participant, closed: bool, rules: Rules)
    requires Sane(p, closed, rules)
    ensures Sane(p, true, rules) && Sane(p.(connections := map[]), true, rules)
  {
  }

  lemma ClosingKeeps(c: Crowd, rules: Rules)
    requires Valid(c, rules)
    ensures Valid(c.(closed := true), rules) && Valid(Closed(c), rules)
  {
    hide Spacious, Linked, Sane;
    var d := Closed(c);
    FewerSpacious(c.participants, d.participants, rules);
    LinksKept(c, d, rules);
    LinksKept(c, c.(closed := true), rules);
    forall id | id in c.participants
      ensures Sane(c.participants[id], true, rules) && Sane(d.participants[id], true, rules)
    {
      ClosedSane(c.participants[id], c.closed, rules);
    }
  }

  /** Changing one participant's connections or loss time only. */
  lemma ChangedKeeps(c: Crowd, id: Pid, p: Participant, d: Crowd, rules: Rules)
    requires Valid(c, rules) && id in c.participants && d == c.(participants := c.participants[id := p])
    requires SameRecord(c.participants[id], p) && p.access == c.participants[id].access && Sane(p, c.closed, rules)
    ensures Valid(d, rules)
  {
    hide Spacious, Linked, Sane;
    FewerSpacious(c.participants, d.participants, rules);
    LinksKept(c, d, rules);
  }

  lemma SeenSane(p: Participant, connectionId: string, now: int, closed: bool, rules: Rules)
    requires Sane(p, closed, rules) && connectionId in p.connections && now > 0
    ensures Sane(p.(connections := p.connections[connectionId := p.connections[connectionId].(lastSeen := now)]),
      closed, rules)
  {
    var connections := p.connections[connectionId := p.connections[connectionId].(lastSeen := now)];
    assert connections.Keys == p.connections.Keys;
    assert connectionId in connections;
  }

  lemma TouchKeeps(c: Crowd, session: Session, expired: bool, now: int, rules: Rules)
    requires Valid(c, rules) && now > 0
    ensures Valid(Touch(c, session, expired, now), rules)
  {
    hide Spacious, Linked, Sane;
    if c.closed || expired {
      ClosingKeeps(c, rules);
    } else if MayAct(c, session) {
      var p, d := c.participants[session.pid], Seen(c, session, now);
      SeenSane(p, session.connectionId, now, c.closed, rules);
      ChangedKeeps(c, session.pid, d.participants[session.pid], d, rules);
    }
  }

  lemma DisconnectedSane(p: Participant, connectionId: string, now: int, closed: bool, rules: Rules)
    requires Sane(p, closed, rules) && connectionId in p.connections && now > 0
    ensures
      var rest := p.connections - {connectionId};
      Sane(p.(connections := rest, disconnectedAt := if rest == map[] then now else p.disconnectedAt), closed, rules)
  {
    Fewer((p.connections - {connectionId}).Keys, p.connections.Keys);
  }

  lemma DisconnectKeeps(c: Crowd, session: Session, now: int, rules: Rules)
    requires Valid(c, rules) && now > 0
    ensures Valid(Disconnect(c, session, now), rules)
  {
    hide Spacious, Linked, Sane;
    var d := Disconnect(c, session, now);
    if d != c {
      DisconnectedSane(c.participants[session.pid], session.connectionId, now, c.closed, rules);
      ChangedKeeps(c, session.pid, d.participants[session.pid], d, rules);
    }
  }

  lemma RenamedLinked(c: Crowd, pid: Pid, name: string, rules: Rules)
    requires Linked(c, rules) && pid in c.participants
    ensures Linked(Renamed(c, pid, name, rules), rules)
  {
    var d := Renamed(c, pid, name, rules);
    if d != c {
      assert LeadsBack(c, pid, rules);
      forall id | id in d.participants
        ensures LeadsBack(d, id, rules)
      {
        assert LeadsBack(c, id, rules);
      }
    }
  }

  lemma RenamedKeeps(c: Crowd, pid: Pid, name: string, rules: Rules)
    requires Valid(c, rules) && pid in c.participants
    ensures Valid(Renamed(c, pid, name, rules), rules)
  {
    hide Spacious, Sane, Linked;
    var d := Renamed(c, pid, name, rules);
    RenamedLinked(c, pid, name, rules);
    FewerSpacious(c.participants, d.participants, rules);
    SaneAnyName(c.participants[pid], d.participants[pid], c.closed, rules);
  }

  lemma SaneAnyName(p: Participant, q: Participant, closed: bool, rules: Rules)
    requires Sane(p, closed, rules) && q == p.(nickname := q.nickname)
    ensures Sane(q, closed, rules)
  {
  }

  lemma SweepKeeps(c: Crowd, expired: bool, now: int, rules: Rules)
    requires Valid(c, rules)
    ensures Valid(Sweep(c, expired, now, rules), rules) && Valid(Evicting(c, now, rules), rules)
  {
    hide Expired, Pruned, Valid;
    if !c.closed {
      ClosingKeeps(c, rules);
      ExpiredKeeps(c, now, rules);
      PrunedKeeps(Expired(c, now, rules), now, rules);
      PrunedKeeps(c, now, rules);
    }
  }

  // ----- Runs -----

  datatype Action =
    | Joining(identity: Identity, creator: bool, generated: Result<string>, expired: bool, now: int)
    | Touching(session: Session, expired: bool, now: int)
    | Renaming(session: Session, name: string, valid: bool, expired: bool, now: int)
    | Disconnecting(session: Session, now: int)
    | Sweeping(expired: bool, now: int)
    | Evict(now: int)
    | Shutdown

  ghost function After(c: Crowd, action: Action, rules: Rules): Crowd {
    match action
    case Joining(identity, creator, generated, expired, now) => Join(c, identity, creator, generated, expired, now,
      rules).0
    case Touching(session, expired, now) => Touch(c, session, expired, now)
    case Renaming(session, name, valid, expired, now) => Rename(c, session, name, valid, expired, now, rules)
    case Disconnecting(session, now) => Disconnect(c, session, now)
    case Sweeping(expired, now) => Sweep(c, expired, now, rules)
    case Evict(now) => Evicting(c, now, rules)
    case Shutdown => Closed(c)
  }

  /** What the callers guarantee: a clock, a capability that can match, and a generator that offers free names. */
  ghost predicate Possible(c: Crowd, action: Action, rules: Rules) {
    match action
    case Joining(_, creator, generated, _, now) =>
      now > 0 && (creator ==> rules.hasCreatorHash)
        && NameFree(Pruned(Expired(c, now, rules), now, rules), generated, rules)
    case Touching(_, _, now) => now > 0
    case Renaming(_, _, _, _, now) => now > 0
    case Disconnecting(_, now) => now > 0
    case _ => true
  }

  lemma AfterKeeps(c: Crowd, action: Action, rules: Rules)
    requires Valid(c, rules) && rules.Proper() && Possible(c, action, rules)
    ensures Valid(After(c, action, rules), rules)
  {
    hide Valid, Join, Touch, Renamed, Disconnect, Sweep, Evicting, Closed, NameFree, Expired, Pruned;
    match action
    case Joining(identity, creator, generated, expired, now) => JoinKeeps(c, identity, creator, generated, expired,
      now, rules);
    case Touching(session, expired, now) => TouchKeeps(c, session, expired, now, rules);
    case Renaming(session, name, valid, expired, now) =>
      TouchKeeps(c, session, expired, now, rules);
      if !c.closed && !expired && MayAct(c, session) && valid {
        TouchStays(c, session, expired, now);
        RenamedKeeps(Touch(c, session, expired, now), session.pid, name, rules);
      }
    case Disconnecting(session, now) => DisconnectKeeps(c, session, now, rules);
    case Sweeping(expired, now) => SweepKeeps(c, expired, now, rules);
    case Evict(now) => SweepKeeps(c, false, now, rules);
    case Shutdown => ClosingKeeps(c, rules);
  }

  lemma TouchStays(c: Crowd, session: Session, expired: bool, now: int)
    ensures Touch(c, session, expired, now).participants.Keys == c.participants.Keys
  {
  }

  ghost predicate IsRun(crowds: seq<Crowd>, actions: seq<Action>, rules: Rules) {
    |crowds| == |actions| + 1 && crowds[0] == Crowd(map[], map[], map[], 0, false)
    && forall i :: 0 <= i < |actions| ==>
              Possible(crowds[i], actions[i], rules) && crowds[i + 1] == After(crowds[i], actions[i], rules)
  }

  /**
    After any actions, participants, sessions and names are mutually inverse,
    the slots are within their limits, and in an open room exactly the
    participants without a connection have a loss time.
  */
  lemma {:induction false} RunKeeps(crowds: seq<Crowd>, actions: seq<Action>, rules: Rules, k: nat)
    requires rules.Proper() && IsRun(crowds, actions, rules) && k < |crowds|
    ensures Valid(crowds[k], rules)
    decreases k
  {
    hide Possible, After;
    if k > 0 {
      RunKeeps(crowds, actions, rules, k - 1);
      AfterKeeps(crowds[k - 1], actions[k - 1], rules);
      assert crowds[k - 1 + 1] == After(crowds[k - 1], actions[k - 1], rules);
    } else {
      assert Having(crowds[0].participants, {Creator, Collaborator}) == {}
        && Having(crowds[0].participants, {Viewer}) == {};
      assert Having(crowds[0].participants, {Collaborator}) == {};
    }
  }

  // ----- The creator's slot -----

  /** Without a creator in the room, a writer slot is free. */
  lemma SlotReserved(c: Crowd, rules: Rules)
    requires Valid(c, rules) && rules.Proper() && rules.hasCreatorHash && !HasCreator(c.participants)
    ensures Writers(c.participants) < rules.maxWriters && |c.participants| < rules.maxParticipants
  {
    hide Linked, AllSane;
    Slots(c.participants);
  }

  /**
    Where a newcomer with the creator's capability is turned away for lack of
    room: exactly when every writer slot is taken.
  */
  lemma CreatorEntersUnlessFull(c: Crowd, identity: Identity, generated: Result<string>, now: int, rules: Rules)
    requires Valid(c, rules) && rules.Proper()
    ensures Entered(c, identity, true, generated, now, rules).1 == Refused(ParticipantLimit)
      <==> Writers(c.participants) == rules.maxWriters
  {
    hide Linked, AllSane;
    Slots(c.participants);
  }

  /** In a room with a creator hash and no creator present, a creator is never refused for lack of room. */
  lemma CreatorNeverRefused(
      c: Crowd, identity: Identity, generated: Result<string>, expired: bool, now: int, rules: Rules)
    requires Valid(c, rules) && rules.Proper() && rules.hasCreatorHash && !HasCreator(c.participants)
    ensures Join(c, identity, true, generated, expired, now, rules).1 != Refused(ParticipantLimit)
  {
    hide Valid, Entered, Expired, Pruned, HasCreator;
    if !c.closed && !expired {
      ExpiredKeeps(c, now, rules);
      var e := Expired(c, now, rules);
      PrunedKeeps(e, now, rules);
      var d := Pruned(e, now, rules);
      NoNewCreator(c, now, rules);
      SlotReserved(d, rules);
      SessionsLead(d, rules);
      if identity.credential !in d.sessions {
        assert d.(sessions := d.sessions - {identity.credential}) == d by {
          assert d.sessions - {identity.credential} == d.sessions;
        }
        CreatorEntersUnlessFull(d, identity, generated, now, rules);
      }
    }
  }

  lemma NoNewCreator(c: Crowd, now: int, rules: Rules)
    requires !HasCreator(c.participants)
    ensures !HasCreator(Pruned(Expired(c, now, rules), now, rules).participants)
  {
    hide Lost;
  }

  // ----- Losing participants -----

  /** The participant's record is still in the room. */
  ghost predicate Lives(c: Crowd, id: Pid, serial: nat) {
    id in c.participants && c.participants[id].serial == serial
  }

  ghost function TimeOf(action: Action): int {
    match action
    case Joining(_, _, _, _, now) => now
    case Touching(_, _, now) => now
    case Renaming(_, _, _, _, now) => now
    case Disconnecting(_, now) => now
    case Sweeping(_, now) => now
    case Evict(now) => now
    case Shutdown => 0
  }

  /** The loss time of a participant if its silent connections are counted as lost. */
  ghost function LostAt(p: Participant, rules: Rules): int {
    if p.connections == map[] then p.disconnectedAt else LatestSeen(p.connections) + rules.timeout
  }

  /**
    A participant's record disappears only when all its connections are gone or
    have been silent for longer than the timeout, and more than the grace period
    after the loss.
  */
  lemma RemovedOnlyWhenLost(c: Crowd, action: Action, id: Pid, rules: Rules)
    requires Valid(c, rules) && id in c.participants
    requires !Lives(After(c, action, rules), id, c.participants[id].serial)
    ensures Alive(c.participants[id].connections, TimeOf(action), rules) == map[]
    ensures TimeOf(action) - LostAt(c.participants[id], rules) > rules.grace
  {
    hide Linked, Spacious, Sane;
    var p, now := c.participants[id], TimeOf(action);
    assert p.serial < c.created by { SerialPast(c, id, rules); }
    match action
    case Joining(identity, creator, generated, expired, _) =>
      NotPruned(c, now, id, rules);
      if id in Pruned(Expired(c, now, rules), now, rules).participants {
        KeptByJoin(c, identity, creator, generated, expired, now, id, rules);
      }
    case Touching(_, _, _) =>
    case Renaming(_, _, _, _, _) =>
    case Disconnecting(_, _) =>
    case Sweeping(_, _) => NotPruned(c, now, id, rules);
    case Evict(_) => NotPruned(c, now, id, rules);
    case Shutdown =>
  }

  lemma SerialPast(c: Crowd, id: Pid, rules: Rules)
    requires Valid(c, rules) && id in c.participants
    ensures c.participants[id].serial < c.created
  {
    assert LeadsBack(c, id, rules);
  }

  lemma KeptByJoin(
      c: Crowd, identity: Identity, creator: bool, generated: Result<string>, expired: bool, now: int, id: Pid,
      rules: Rules)
    requires id in c.participants && id in Pruned(Expired(c, now, rules), now, rules).participants
    ensures Lives(Join(c, identity, creator, generated, expired, now, rules).0, id, c.participants[id].serial)
  {
    hide Rejoined, Entered, ExpiredParticipant, Lost;
    assert Lives(Expired(c, now, rules), id, c.participants[id].serial) by {
      SerialKept(c.participants[id], now, rules);
    }
    var d := Pruned(Expired(c, now, rules), now, rules);
    if !c.closed && !expired {
      if identity.credential in d.sessions && d.sessions[identity.credential] in d.participants {
        RejoinedLives(d, d.sessions[identity.credential], identity.connectionId, creator, now, id, rules);
      } else {
        EnteredLives(d.(sessions := d.sessions - {identity.credential}), identity, creator, generated, now, id, rules);
      }
    }
  }

  lemma SerialKept(p: Participant, now: int, rules: Rules)
    ensures ExpiredParticipant(p, now, rules).serial == p.serial
  {
  }

  lemma RejoinedLives(c: Crowd, joined: Pid, connectionId: string, creator: bool, now: int, id: Pid, rules: Rules)
    requires joined in c.participants && id in c.participants
    ensures Lives(Rejoined(c, joined, connectionId, creator, now, rules).0, id, c.participants[id].serial)
  {
  }

  lemma EnteredLives(
      c: Crowd, identity: Identity, creator: bool, generated: Result<string>, now: int, id: Pid, rules: Rules)
    requires id in c.participants
    ensures Lives(Entered(c, identity, creator, generated, now, rules).0, id, c.participants[id].serial)
  {
    hide AccessFor;
  }

  lemma NotPruned(c: Crowd, now: int, id: Pid, rules: Rules)
    requires Valid(c, rules) && id in c.participants
    ensures Lives(Expired(c, now, rules), id, c.participants[id].serial)
    ensures
      var kept := Pruned(Expired(c, now, rules), now, rules).participants.Keys;
      id !in kept * Pruned(c, now, rules).participants.Keys ==>
        && Alive(c.participants[id].connections, now, rules) == map[]
        && now - LostAt(c.participants[id], rules) > rules.grace
  {
    hide Linked, Spacious, Pruned;
    assert Sane(c.participants[id], c.closed, rules);
    if c.participants[id].connections == map[] {
      assert Alive(c.participants[id].connections, now, rules) == map[];
    }
    PrunedIffLost(c, now, id, rules);
    PrunedIffLost(Expired(c, now, rules), now, id, rules);
  }

  lemma PrunedIffLost(c: Crowd, now: int, id: Pid, rules: Rules)
    requires id in c.participants
    ensures id in Pruned(c, now, rules).participants <==> !Lost(c.participants[id], now, rules)
  {
  }

  // ----- Stale sessions -----

  /** A session that the record `serial` has issued. */
  ghost predicate Issued(c: Crowd, session: Session, serial: nat) {
    serial < c.created
      && (Lives(c, session.pid, serial) ==> session.generation <= c.participants[session.pid].nextGeneration)
  }

  /** The session's connection is there, at its generation. */
  ghost predicate Connects(c: Crowd, session: Session) {
    && session.pid in c.participants && session.connectionId in c.participants[session.pid].connections
    && c.participants[session.pid].connections[session.connectionId].generation == session.generation
  }

  /** An issued session whose connection is gone or has been replaced. */
  ghost predicate Spent(c: Crowd, session: Session, serial: nat) {
    Issued(c, session, serial) && (Lives(c, session.pid, serial) ==> !Connects(c, session))
  }

  /** An issued session stays issued, and a spent one stays spent. */
  ghost predicate StillSpent(c: Crowd, d: Crowd, session: Session, serial: nat) {
    Issued(d, session, serial) && (Spent(c, session, serial) ==> Spent(d, session, serial))
  }

  /** While the record lives, generations only grow, so a replaced connection's old session never acts again. */
  lemma SpentStays(c: Crowd, action: Action, session: Session, serial: nat, rules: Rules)
    requires Issued(c, session, serial)
    ensures StillSpent(c, After(c, action, rules), session, serial)
  {
    hide Spent, Issued, Join, Touch, Rename, Disconnect, Expired, Pruned;
    match action
    case Joining(identity, creator, generated, expired, now) =>
      SpentAfterJoin(c, identity, creator, generated, expired, now, session, serial, rules);
    case Touching(acting, expired, now) => SpentAfterTouch(c, acting, expired, now, session, serial);
    case Renaming(acting, name, valid, expired, now) => SpentAfterRename(c, acting, name, valid, expired, now,
      session, serial, rules);
    case Disconnecting(acting, now) => SpentAfterDisconnect(c, acting, now, session, serial);
    case Sweeping(_, now) =>
      SpentAfterLoss(c, session, serial, now, rules);
      SpentWhenClosed(c, session, serial);
    case Evict(now) => SpentAfterLoss(c, session, serial, now, rules);
    case Shutdown => SpentWhenClosed(c, session, serial);
  }

  lemma SpentWhenClosed(c: Crowd, session: Session, serial: nat)
    requires Issued(c, session, serial)
    ensures StillSpent(c, Closed(c), session, serial)
  {
  }

  lemma SpentAfterTouch(c: Crowd, acting: Session, expired: bool, now: int, session: Session, serial: nat)
    requires Issued(c, session, serial)
    ensures StillSpent(c, Touch(c, acting, expired, now), session, serial)
  {
  }

  lemma SpentAfterRename(
      c: Crowd, acting: Session, name: string, valid: bool, expired: bool, now: int, session: Session, serial: nat,
      rules: Rules)
    requires Issued(c, session, serial)
    ensures StillSpent(c, Rename(c, acting, name, valid, expired, now, rules), session, serial)
  {
    SpentAfterTouch(c, acting, expired, now, session, serial);
  }

  lemma SpentAfterDisconnect(c: Crowd, acting: Session, now: int, session: Session, serial: nat)
    requires Issued(c, session, serial)
    ensures StillSpent(c, Disconnect(c, acting, now), session, serial)
  {
  }

  lemma SpentAfterJoin(
      c: Crowd, identity: Identity, creator: bool, generated: Result<string>, expired: bool, now: int,
      session: Session, serial: nat, rules: Rules)
    requires Issued(c, session, serial)
    ensures StillSpent(c, Join(c, identity, creator, generated, expired, now, rules).0, session, serial)
  {
    if !c.closed && !expired {
      hide Rejoined, Entered, Expired, Pruned, Spent, Issued;
      SpentAfterLoss(c, session, serial, now, rules);
      var d := Pruned(Expired(c, now, rules), now, rules);
      if identity.credential in d.sessions && d.sessions[identity.credential] in d.participants {
        SpentAfterRejoin(d, d.sessions[identity.credential], identity.connectionId, creator, now, session, serial,
          rules);
      } else {
        SpentAfterEntry(d, identity, creator, generated, now, session, serial, rules);
      }
    }
  }

  lemma SpentAfterRejoin(
      c: Crowd, joined: Pid, connectionId: string, creator: bool, now: int, session: Session, serial: nat,
      rules: Rules)
    requires Issued(c, session, serial) && joined in c.participants
    ensures StillSpent(c, Rejoined(c, joined, connectionId, creator, now, rules).0, session, serial)
  {
  }

  lemma SpentAfterEntry(
      c: Crowd, identity: Identity, creator: bool, generated: Result<string>, now: int, session: Session,
      serial: nat, rules: Rules)
    requires Issued(c, session, serial)
    ensures
      var unlinked := c.(sessions := c.sessions - {identity.credential});
      StillSpent(c, Entered(unlinked, identity, creator, generated, now, rules).0, session, serial)
  {
    hide Entered;
    var d := c.(sessions := c.sessions - {identity.credential});
    if Entered(d, identity, creator, generated, now, rules).1.Joined? {
      EnteredFacts(d, identity, creator, generated, now, rules);
    } else {
      NotEntered(d, identity, creator, generated, now, rules);
    }
  }

  lemma SpentAfterLoss(c: Crowd, session: Session, serial: nat, now: int, rules: Rules)
    requires Issued(c, session, serial)
    ensures StillSpent(c, Expired(c, now, rules), session, serial)
    ensures StillSpent(c, Pruned(c, now, rules), session, serial)
    ensures StillSpent(c, Pruned(Expired(c, now, rules), now, rules), session, serial)
  {
  }

  /** A join issues its session, which may act at once. */
  lemma JoinIssues(
      c: Crowd, identity: Identity, creator: bool, generated: Result<string>, expired: bool, now: int, rules: Rules)
    requires Valid(c, rules) && Join(c, identity, creator, generated, expired, now, rules).1.Joined?
    ensures
      var (d, outcome) := Join(c, identity, creator, generated, expired, now, rules);
      && MayAct(d, outcome.session) && Issued(d, outcome.session, d.participants[outcome.session.pid].serial)
  {
    hide Valid, Expired, Pruned, Entered, AccessFor;
    var d := Pruned(Expired(c, now, rules), now, rules);
    OpenStays(c, now, rules);
    OpenStays(Expired(c, now, rules), now, rules);
    if identity.credential in d.sessions && d.sessions[identity.credential] in d.participants {
      assert d.participants[d.sessions[identity.credential]].serial < d.created by {
        ExpiredKeeps(c, now, rules);
        PrunedKeeps(Expired(c, now, rules), now, rules);
        SerialPast(d, d.sessions[identity.credential], rules);
      }
    } else {
      EnteredFacts(d.(sessions := d.sessions - {identity.credential}), identity, creator, generated, now, rules);
    }
  }

  lemma {:induction false} IssuedForever(
      crowds: seq<Crowd>, actions: seq<Action>, rules: Rules, session: Session, serial: nat, i: nat, k: nat)
    requires IsRun(crowds, actions, rules) && i <= k < |crowds| && Issued(crowds[i], session, serial)
    ensures StillSpent(crowds[i], crowds[k], session, serial)
    decreases k
  {
    hide After, Possible, Issued, Spent;
    if i < k {
      IssuedForever(crowds, actions, rules, session, serial, i, k - 1);
      SpentStays(crowds[k - 1], actions[k - 1], session, serial, rules);
      assert crowds[k - 1 + 1] == After(crowds[k - 1], actions[k - 1], rules);
    }
  }

  /** The session that a join of a run returned, and the record that issued it. */
  ghost predicate JoinedAt(
      crowds: seq<Crowd>, actions: seq<Action>, rules: Rules, i: nat, session: Session, serial: nat)
    requires i < |actions| < |crowds|
  {
    && actions[i].Joining? && Lives(crowds[i + 1], session.pid, serial)
    && var join := actions[i];
       var outcome := Join(crowds[i], join.identity, join.creator, join.generated, join.expired, join.now, rules).1;
       outcome.Joined? && outcome.session == session
  }

  /**
    Along every run: once the connection of a session that a join returned is
    gone or replaced, that session never acts again while the participant's
    record lives, whatever joins, expiries and prunings follow.
  */
  lemma ReplacedNeverActs(
      crowds: seq<Crowd>, actions: seq<Action>, rules: Rules, session: Session, serial: nat, i: nat, j: nat, k: nat)
    requires rules.Proper() && IsRun(crowds, actions, rules) && i < j <= k < |crowds|
    requires JoinedAt(crowds, actions, rules, i, session, serial)
    requires Lives(crowds[j], session.pid, serial) && !Connects(crowds[j], session)
    ensures Lives(crowds[k], session.pid, serial) ==> !MayAct(crowds[k], session)
  {
    hide After, Possible, Valid, Join;
    var join := actions[i];
    RunKeeps(crowds, actions, rules, i);
    JoinIssues(crowds[i], join.identity, join.creator, join.generated, join.expired, join.now, rules);
    assert crowds[i + 1] == After(crowds[i], join, rules);
    AfterJoin(crowds[i], join, rules);
    IssuedForever(crowds, actions, rules, session, serial, i + 1, j);
    IssuedForever(crowds, actions, rules, session, serial, j, k);
  }

  lemma AfterJoin(c: Crowd, join: Action, rules: Rules)
    requires join.Joining?
    ensures After(c, join, rules) ==
      Join(c, join.identity, join.creator, join.generated, join.expired, join.now, rules).0
  {
  }
}
