/**
  The room's own code for joining, acting, leaving and being forgotten, each
  operation against what it does to the crowd.
*/
module PresenceRooms {
  import opened ChangeSets
  import opened Presence

  class PresenceRoom {
    const rules: Rules
    var participants: map<Pid, Participant>
    var sessions: map<string, Pid>
    var names: map<string, Pid>
    var created: nat
    var closed: bool

    ghost function Current(): Crowd
      reads this
    {
      Crowd(participants, sessions, names, created, closed)
    }

    constructor (rules: Rules)
      ensures this.rules == rules && Current() == Crowd(map[], map[], map[], 0, false)
    {
      this.rules := rules;
      participants, sessions, names, created, closed := map[], map[], map[], 0, false;
    }

    // ----- Slots -----

    method CountSlots(access: set<Access>) returns (count: nat)
      ensures count == |Having(participants, access)|
    {
      count := 0;
      var rest := participants.Keys;
      ghost var counted: set<Pid> := {};
      while rest != {}
        invariant rest <= participants.Keys
        invariant counted == Having(participants, access) - rest && count == |counted|
        decreases |rest|
      {
        var id :| id in rest;
        if participants[id].access in access {
          count := count + 1;
          counted := counted + {id};
        }
        rest := rest - {id};
      }
      assert counted == Having(participants, access);
    }

    method FindCreator() returns (found: bool)
      ensures found == HasCreator(participants)
    {
      var rest := participants.Keys;
      while rest != {}
        invariant rest <= participants.Keys
        invariant forall id :: id in participants && id !in rest ==> participants[id].access != Creator
        decreases |rest|
      {
        var id :| id in rest;
        if participants[id].access == Creator {
          return true;
        }
        rest := rest - {id};
      }
      return false;
    }

    method AccessClassForJoin(creator: bool) returns (access: Result<Access>)
      ensures access == AccessFor(Current(), creator, rules)
    {
      var writers := CountSlots({Creator, Collaborator});
      if creator {
        return if writers >= rules.maxWriters then Err else Ok(Creator);
      }
      var limit: int := rules.maxWriters;
      var present := FindCreator();
      if rules.hasCreatorHash && !present {
        limit := limit - 1;
      }
      if writers < limit {
        return Ok(Collaborator);
      }
      var viewers := CountSlots({Viewer});
      return if viewers >= rules.maxViewers then Err else Ok(Viewer);
    }

    // ----- Losing connections -----

    method ExpireConnections(now: int)
      requires forall id :: id in participants ==> forall k :: k in participants[id].connections ==>
        participants[id].connections[k].lastSeen > 0
      modifies this`participants
      ensures Current() == Expired(old(Current()), now, rules)
    {
      var rest := participants.Keys;
      ghost var before := participants;
      while rest != {}
        invariant rest <= participants.Keys == before.Keys
        invariant forall id :: id in rest ==> participants[id] == before[id]
        invariant forall id :: id in before && id !in rest ==>
          participants[id] == ExpiredParticipant(before[id], now, rules)
        decreases |rest|
      {
        var id :| id in rest;
        var p := ExpireParticipant(participants[id], now, rules);
        participants := participants[id := p];
        rest := rest - {id};
      }
      assert participants == Expired(old(Current()), now, rules).participants;
    }

    // ----- Forgetting participants -----

    method FindLost(now: int) returns (lost: set<Pid>)
      ensures lost == set id | id in participants && Lost(participants[id], now, rules)
    {
      var rest := participants.Keys;
      lost := {};
      while rest != {}
        invariant rest <= participants.Keys
        invariant forall id :: id in lost <==> id in participants && id !in rest && Lost(participants[id], now, rules)
        decreases |rest|
      {
        var id :| id in rest;
        var p := participants[id];
        if !(|p.connections| > 0 || p.disconnectedAt == 0 || now - p.disconnectedAt <= rules.grace) {
          lost := lost + {id};
        }
        rest := rest - {id};
      }
    }

    method Forget(gone: set<Pid>)
      requires Linked(Current(), rules) && gone <= participants.Keys
      modifies this`participants, this`sessions, this`names
      ensures Forgets(old(Current()), Current(), gone, rules)
    {
      hide Linked, Forgets;
      ghost var before := Current();
      ForgetsNone(before, rules);
      var rest := gone;
      assert gone - rest == {};
      while rest != {}
        invariant rest <= gone
        invariant Forgets(before, Current(), gone - rest, rules)
        decreases |rest|
      {
        var id :| id in rest;
        ForgetsMore(before, Current(), gone - rest, id, rules);
        var p := participants[id];
        participants := participants - {id};
        sessions := sessions - {p.session};
        names := names - {rules.nameKey(p.nickname)};
        assert gone - (rest - {id}) == (gone - rest) + {id};
        rest := rest - {id};
      }
      assert gone - {} == gone;
    }

    method PruneDisconnected(now: int)
      requires Linked(Current(), rules)
      modifies this`participants, this`sessions, this`names
      ensures Current() == Pruned(old(Current()), now, rules)
    {
      hide Linked, Forgets, Pruned, Lost;
      ghost var before := Current();
      var lost := FindLost(now);
      Forget(lost);
      ForgottenIsPruned(before, Current(), lost, now, rules);
    }

    // ----- Operations -----

    /** `expired` is the test of the clock against the room's expiry. */
    method EnsureActive(expired: bool) returns (ok: bool)
      modifies this`closed
      ensures ok == !(old(closed) || expired) && closed == !ok
    {
      if closed || expired {
        closed := true;
        return false;
      }
      return true;
    }

    method JoinRoom(
        identity: Identity, creator: bool, generated: Result<string>, expired: bool,
        now: int) returns (outcome: Outcome)
      requires Valid(Current(), rules) && rules.Proper() && now > 0 && (creator ==> rules.hasCreatorHash)
      requires NameFree(Pruned(Expired(Current(), now, rules), now, rules), generated, rules)
      modifies this
      ensures (Current(), outcome) == Join(old(Current()), identity, creator, generated, expired, now, rules)
      ensures Valid(Current(), rules)
    {
      hide Expired, Pruned, Linked, Spacious, NameFree, Rejoined, Entered;
      ghost var before := Current();
      JoinKeeps(before, identity, creator, generated, expired, now, rules);
      var active := EnsureActive(expired);
      if !active {
        return Outcome.Refused(RoomExpired);
      }
      ExpiredKeeps(before, now, rules);
      PositiveTimes(before, rules);
      ExpireConnections(now);
      PruneDisconnected(now);
      ghost var d := Current();
      if identity.credential in sessions {
        var existing := sessions[identity.credential];
        if existing in participants {
          outcome := Rejoin(existing, identity.connectionId, creator, now);
          return;
        }
        sessions := sessions - {identity.credential};
      }
      assert d.sessions - {identity.credential} == sessions;
      outcome := Enter(identity, creator, generated, now);
    }

    method Rejoin(id: Pid, connectionId: string, creator: bool, now: int) returns (outcome: Outcome)
      requires id in participants
      modifies this`participants
      ensures (Current(), outcome) == Rejoined(old(Current()), id, connectionId, creator, now, rules)
    {
      hide Having;
      var p := participants[id];
      if connectionId in p.connections {
        return Outcome.Refused(SessionActive);
      }
      if |p.connections| >= rules.maxConnections {
        return Outcome.Refused(ConnectionLimit);
      }
      if creator && p.access != Creator {
        if p.access == Viewer {
          var writers := CountSlots({Creator, Collaborator});
          if writers >= rules.maxWriters {
            return Outcome.Refused(ParticipantLimit);
          }
        }
        p := p.(access := Creator);
      }
      ghost var upgraded := p;
      p := AddConnection(p, connectionId, now);
      p := p.(disconnectedAt := 0);
      assert p == Connected(upgraded, connectionId, now);
      participants := participants[id := p];
      outcome := Joined(Session(id, connectionId, p.nextGeneration), true);
    }

    method Enter(identity: Identity, creator: bool, generated: Result<string>, now: int) returns (outcome: Outcome)
      modifies this
      ensures (Current(), outcome) == Entered(old(Current()), identity, creator, generated, now, rules)
    {
      if |participants| >= rules.maxParticipants {
        return Outcome.Refused(ParticipantLimit);
      }
      var access := AccessClassForJoin(creator);
      if access.Err? {
        return Outcome.Refused(ParticipantLimit);
      }
      var id := rules.pidOf(identity.credential);
      if id in participants {
        return Outcome.Refused(Conflict);
      }
      var nickname := "";
      if identity.preferredName != "" && rules.nameKey(identity.preferredName) !in names {
        nickname := identity.preferredName;
      } else {
        if generated.Err? {
          return Outcome.Refused(NoName);
        }
        nickname := generated.value;
      }
      var p := Participant(created, identity.credential, access.value, nickname, map[], 0, 0);
      created := created + 1;
      p := AddConnection(p, identity.connectionId, now);
      participants := participants[id := p];
      sessions := sessions[identity.credential := id];
      names := names[rules.nameKey(nickname) := id];
      outcome := Joined(Session(id, identity.connectionId, p.nextGeneration), false);
    }

    /** What every action of a session begins with. */
    method EnsureConnection(session: Session, expired: bool, now: int) returns (ok: bool)
      requires Valid(Current(), rules) && now > 0
      modifies this
      ensures Current() == Touch(old(Current()), session, expired, now) && Valid(Current(), rules)
      ensures ok == (!expired && MayAct(old(Current()), session))
    {
      hide Valid;
      TouchKeeps(Current(), session, expired, now, rules);
      var active := EnsureActive(expired);
      if !active || session.pid !in participants {
        return false;
      }
      var p := participants[session.pid];
      if session.connectionId !in p.connections
        || p.connections[session.connectionId].generation != session.generation {
        return false;
      }
      var connection := p.connections[session.connectionId].(lastSeen := now);
      participants := participants[session.pid := p.(connections := p.connections[session.connectionId := connection])];
      return true;
    }

    method RenameParticipant(session: Session, name: string, valid: bool, expired: bool, now: int) returns (ok: bool)
      requires Valid(Current(), rules) && now > 0
      modifies this
      ensures Current() == Rename(old(Current()), session, name, valid, expired, now, rules) && Valid(Current(), rules)
      ensures ok <==>
        && !expired && MayAct(old(Current()), session) && valid
        && (rules.nameKey(name) in old(names) ==> old(names)[rules.nameKey(name)] == session.pid)
    {
      hide Valid;
      ok := EnsureConnection(session, expired, now);
      if !ok || !valid {
        return false;
      }
      RenamedKeeps(Current(), session.pid, name, rules);
      var key := rules.nameKey(name);
      if key in names && names[key] != session.pid {
        return false;
      }
      var p := participants[session.pid];
      names := names - {rules.nameKey(p.nickname)};
      names := names[key := session.pid];
      participants := participants[session.pid := p.(nickname := name)];
    }

    method DisconnectSession(session: Session, now: int) returns (ok: bool)
      requires Valid(Current(), rules) && now > 0
      modifies this`participants
      ensures Current() == Disconnect(old(Current()), session, now) && Valid(Current(), rules)
      ensures ok <==> Connects(old(Current()), session)
    {
      hide Valid;
      DisconnectKeeps(Current(), session, now, rules);
      if session.pid !in participants {
        return false;
      }
      var p := participants[session.pid];
      if session.connectionId !in p.connections
        || p.connections[session.connectionId].generation != session.generation {
        return false;
      }
      p := p.(connections := p.connections - {session.connectionId});
      if |p.connections| == 0 {
        p := p.(disconnectedAt := now);
      }
      participants := participants[session.pid := p];
      return true;
    }

    method SweepRoom(expired: bool, now: int)
      requires Valid(Current(), rules)
      modifies this
      ensures Current() == Sweep(old(Current()), expired, now, rules) && Valid(Current(), rules)
    {
      hide Expired, Pruned, Linked, Spacious, Sane;
      SweepKeeps(Current(), expired, now, rules);
      if closed {
        return;
      }
      if expired {
        participants := map id | id in participants :: participants[id].(connections := map[]);
        closed := true;
        return;
      }
      ExpiredKeeps(Current(), now, rules);
      PositiveTimes(Current(), rules);
      ExpireConnections(now);
      PruneDisconnected(now);
    }
  }

  /** A new connection gets a generation its participant never used. */
  method AddConnection(p: Participant, connectionId: string, now: int) returns (r: Participant)
    ensures r == p.(nextGeneration := p.nextGeneration + 1,
      connections := p.connections[connectionId := Connection(p.nextGeneration + 1, now)])
  {
    r := p.(nextGeneration := p.nextGeneration + 1);
    r := r.(connections := r.connections[connectionId := Connection(r.nextGeneration, now)]);
  }

  lemma PositiveTimes(c: Crowd, rules: Rules)
    requires Valid(c, rules)
    ensures forall id :: id in c.participants ==> forall k :: k in c.participants[id].connections ==>
      c.participants[id].connections[k].lastSeen > 0
  {
    hide Linked, Spacious;
    forall id | id in c.participants
      ensures forall k :: k in c.participants[id].connections ==> c.participants[id].connections[k].lastSeen > 0
    {
      assert Sane(c.participants[id], c.closed, rules);
    }
  }

  lemma ForgetsNone(c: Crowd, rules: Rules)
    ensures Forgets(c, c, {}, rules)
  {
  }

  /** `d` is `c` without some participants, their sessions and their names. */
  ghost predicate Forgets(c: Crowd, d: Crowd, gone: set<Pid>, rules: Rules) {
    && d.created == c.created && d.closed == c.closed
    && d.participants == c.participants - gone
    && d.sessions == (map s | s in c.sessions && c.sessions[s] !in gone :: c.sessions[s])
    && d.names == (map n | n in c.names && c.names[n] !in gone :: c.names[n])
  }

  lemma ForgetsMore(c: Crowd, d: Crowd, gone: set<Pid>, id: Pid, rules: Rules)
    requires Linked(c, rules) && Forgets(c, d, gone, rules) && id in c.participants && id !in gone
    ensures id in d.participants
    ensures
      var p := d.participants[id];
      Forgets(c, Crowd(d.participants - {id}, d.sessions - {p.session}, d.names - {rules.nameKey(p.nickname)},
        d.created, d.closed), gone + {id}, rules)
  {
    var p := c.participants[id];
    OnlyLinks(c, id, rules);
    hide Linked;
    assert d.participants - {id} == c.participants - (gone + {id});
    LinkGone(c.sessions, gone, id, p.session);
    LinkGone(c.names, gone, id, rules.nameKey(p.nickname));
  }

  /** Forgetting a participant drops its one link. */
  lemma LinkGone<K>(links: map<K, Pid>, gone: set<Pid>, id: Pid, key: K)
    requires forall k :: k in links ==> (links[k] == id <==> k == key)
    ensures (map k | k in links && links[k] !in gone :: links[k]) - {key}
         == map k | k in links && links[k] !in gone + {id} :: links[k]
  {
  }

  /** A participant has one session and one name. */
  lemma OnlyLinks(c: Crowd, id: Pid, rules: Rules)
    requires Linked(c, rules) && id in c.participants
    ensures forall s :: s in c.sessions ==> (c.sessions[s] == id <==> s == c.participants[id].session)
    ensures forall n :: n in c.names ==> (c.names[n] == id <==> n == rules.nameKey(c.participants[id].nickname))
  {
    assert LeadsBack(c, id, rules);
  }

  lemma ForgottenIsPruned(c: Crowd, d: Crowd, gone: set<Pid>, now: int, rules: Rules)
    requires Linked(c, rules) && Forgets(c, d, gone, rules)
    requires gone == set id | id in c.participants && Lost(c.participants[id], now, rules)
    ensures d == Pruned(c, now, rules)
  {
    hide Lost;
    var e := Pruned(c, now, rules);
    assert d.participants == e.participants;
    assert d.sessions == e.sessions;
    assert d.names == e.names;
  }

  /** Drops silent connections one by one, keeping the latest time one of them was lost. */
  method DropSilent(connections: map<string, Connection>, now: int, rules: Rules)
      returns (kept: map<string, Connection>, finalLostAt: int, ghost last: string)
    requires forall k :: k in connections ==> connections[k].lastSeen > 0
    ensures kept == Alive(connections, now, rules)
    ensures finalLostAt == 0 || (last in connections && finalLostAt == connections[last].lastSeen + rules.timeout)
    ensures forall k :: k in connections && k !in kept ==> 0 < connections[k].lastSeen + rules.timeout <= finalLostAt
  {
    var rest := connections.Keys;
    kept, finalLostAt, last := connections, 0, "";
    while rest != {}
      invariant rest <= connections.Keys
      invariant forall k :: k in kept ==> k in connections && kept[k] == connections[k]
      invariant forall k :: k in connections ==>
        (k in kept <==> k in rest || now - connections[k].lastSeen <= rules.timeout)
      invariant finalLostAt == 0 || (last in connections && finalLostAt == connections[last].lastSeen + rules.timeout)
      invariant forall k :: k in connections && k !in kept ==> connections[k].lastSeen + rules.timeout <= finalLostAt
      decreases |rest|
    {
      var k :| k in rest;
      var c := connections[k];
      if now - c.lastSeen > rules.timeout {
        kept := kept - {k};
        if c.lastSeen + rules.timeout > finalLostAt {
          finalLostAt := c.lastSeen + rules.timeout;
          last := k;
        }
      }
      rest := rest - {k};
    }
  }

  method ExpireParticipant(p: Participant, now: int, rules: Rules) returns (r: Participant)
    requires forall k :: k in p.connections ==> p.connections[k].lastSeen > 0
    ensures r == ExpiredParticipant(p, now, rules)
  {
    hide Alive;
    var kept, finalLostAt, last := DropSilent(p.connections, now, rules);
    r := p.(connections := kept);
    if |kept| < |p.connections| && |kept| == 0 {
      var gone :| gone in p.connections;
      assert kept == map[] && gone !in kept;
      AllLost(p.connections, last, finalLostAt, rules.timeout);
      r := r.(disconnectedAt := finalLostAt);
    }
  }

  lemma AllLost(connections: map<string, Connection>, last: string, lostAt: int, timeout: nat)
    requires last in connections && lostAt == connections[last].lastSeen + timeout
    requires forall k :: k in connections ==> connections[k].lastSeen + timeout <= lostAt
    ensures lostAt == LatestSeen(connections) + timeout
  {
  }
}
