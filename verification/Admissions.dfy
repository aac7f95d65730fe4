/**
  Who is let in and who is forgotten, in terms of the room alone: the outcome of
  every join, what it leaves, and exactly which participants a sweep loses.
*/
module Admissions {
  import opened ChangeSets
  import opened Presence

  // ----- Who is forgotten -----

  /** No connection was heard of within the timeout, and the grace period after the loss is over. */
  ghost predicate Gone(p: Participant, now: int, rules: Rules) {
    && (forall k :: k in p.connections ==> now - p.connections[k].lastSeen > rules.timeout)
    && now - LostAt(p, rules) > rules.grace
  }

  /** The participant without its silent connections, and with its loss time if none is left. */
  ghost predicate WithoutSilent(p: Participant, q: Participant, now: int, rules: Rules) {
    && (forall k :: k in q.connections <==> k in p.connections && now - p.connections[k].lastSeen <= rules.timeout)
    && (forall k :: k in q.connections ==> q.connections[k] == p.connections[k])
    && q == p.(connections := q.connections, disconnectedAt := q.disconnectedAt)
    && q.disconnectedAt == if q.connections == map[] then LostAt(p, rules) else p.disconnectedAt
  }

  /** A sweep of an open room forgets exactly those who are gone, and takes from the others their silent connections. */
  lemma SweptExactly(c: Crowd, now: int, rules: Rules)
    requires Valid(c, rules) && !c.closed
    ensures
      var d := Sweep(c, false, now, rules);
      && d.participants.Keys <= c.participants.Keys && !d.closed && d.created == c.created
      && forall id :: id in c.participants ==>
           && (id in d.participants <==> !Gone(c.participants[id], now, rules))
           && (id in d.participants ==> WithoutSilent(c.participants[id], d.participants[id], now, rules))
  {
    hide Linked, Spacious, LostAt, ExpiredParticipant;
    var d := Sweep(c, false, now, rules);
    forall id | id in c.participants
      ensures id in d.participants <==> !Gone(c.participants[id], now, rules)
      ensures id in d.participants ==> WithoutSilent(c.participants[id], d.participants[id], now, rules)
    {
      assert Sane(c.participants[id], c.closed, rules);
      LostWhenGone(c.participants[id], now, rules);
      PrunedIffLost(Expired(c, now, rules), now, id, rules);
    }
  }

  lemma LostWhenGone(p: Participant, now: int, rules: Rules)
    requires Sane(p, false, rules)
    ensures
      var q := ExpiredParticipant(p, now, rules);
      (Lost(q, now, rules) <==> Gone(p, now, rules)) && WithoutSilent(p, q, now, rules)
  {
    var alive := Alive(p.connections, now, rules);
    if p.connections != map[] && alive == map[] {
      var t := LatestSeen(p.connections);
      var k :| k in p.connections && p.connections[k].lastSeen == t;
      assert t > 0;
      forall k | k in p.connections
        ensures now - p.connections[k].lastSeen > rules.timeout
      {
        assert k !in alive;
      }
    } else if alive != map[] {
      var k :| k in alive;
      assert now - p.connections[k].lastSeen <= rules.timeout;
    }
  }

  /** A connection that was heard of within the timeout survives a sweep. */
  lemma ActiveStays(c: Crowd, session: Session, seen: int, now: int, rules: Rules)
    requires Valid(c, rules) && MayAct(c, session) && seen > 0 && now - seen <= rules.timeout
    ensures Connects(Sweep(Touch(c, session, false, seen), false, now, rules), session)
  {
    hide Linked, Spacious, Valid, Sweep;
    var d := Touch(c, session, false, seen);
    TouchKeeps(c, session, false, seen, rules);
    SweptExactly(d, now, rules);
    var p := d.participants[session.pid];
    assert p.connections[session.connectionId].lastSeen == seen;
    assert !Gone(p, now, rules);
  }

  /** A sweep after the room's expiry closes it and takes every connection. */
  lemma ExpiryCloses(c: Crowd, now: int, rules: Rules)
    requires !c.closed
    ensures
      var d := Sweep(c, true, now, rules);
      d.closed && d.participants.Keys == c.participants.Keys
      && forall id :: id in d.participants ==> d.participants[id] == c.participants[id].(connections := map[])
  {
  }

  /** A closed room stays closed whatever happens, and nobody acts in it. */
  lemma ClosedStays(c: Crowd, action: Action, session: Session, rules: Rules)
    requires c.closed
    ensures After(c, action, rules).closed && !MayAct(After(c, action, rules), session)
  {
  }

  // ----- Who is let in -----

  ghost function WriterIds(c: Crowd): set<Pid> {
    set id | id in c.participants && c.participants[id].access != Viewer
  }

  ghost function ViewerIds(c: Crowd): set<Pid> {
    set id | id in c.participants && c.participants[id].access == Viewer
  }

  ghost predicate CreatorPresent(c: Crowd) {
    exists id :: id in c.participants && c.participants[id].access == Creator
  }

  /** The writer slots that a collaborator may take: one is kept back for a creator who is not there. */
  ghost function OpenSlots(c: Crowd, rules: Rules): int {
    rules.maxWriters - |WriterIds(c)| - if rules.hasCreatorHash && !CreatorPresent(c) then 1 else 0
  }

  /** The credential belongs to this participant. */
  ghost predicate Known(c: Crowd, credential: string, id: Pid) {
    id in c.participants && c.participants[id].session == credential
  }

  ghost predicate OnlyChanges(c: Crowd, d: Crowd, id: Pid) {
    && (forall other :: other != id ==> (other in d.participants <==> other in c.participants))
    && (forall other :: other != id && other in c.participants ==> d.participants[other] == c.participants[other])
  }

  lemma CountedSlots(c: Crowd)
    ensures |WriterIds(c)| == Writers(c.participants) && |ViewerIds(c)| == Viewers(c.participants)
    ensures CreatorPresent(c) <==> HasCreator(c.participants)
    ensures |WriterIds(c)| + |ViewerIds(c)| == |c.participants|
  {
    assert WriterIds(c) == Having(c.participants, {Creator, Collaborator}) by {
      forall id | id in c.participants
        ensures id in WriterIds(c) <==> id in Having(c.participants, {Creator, Collaborator})
      {
        var access := c.participants[id].access;
        assert access.Creator? || access.Collaborator? || access.Viewer?;
      }
    }
    assert ViewerIds(c) == Having(c.participants, {Viewer});
    WritersAndViewers(c.participants);
  }

  /** Only a closed or expired room refuses everyone. */
  lemma ExpiredRefuses(
      c: Crowd, identity: Identity, creator: bool, generated: Result<string>, expired: bool, now: int, rules: Rules)
    ensures Join(c, identity, creator, generated, expired, now, rules).1 == Refused(RoomExpired) <==>
      c.closed || expired
  {
    hide AccessFor, Pruned, Expired;
  }

  /** A credential has one participant, and its session leads there. */
  lemma SessionOfKnown(c: Crowd, credential: string, rules: Rules)
    requires Valid(c, rules) && rules.Proper()
    ensures forall id :: Known(c, credential, id) ==> credential in c.sessions && c.sessions[credential] == id
    ensures credential in c.sessions ==> Known(c, credential, c.sessions[credential])
    ensures rules.pidOf(credential) in c.participants ==> Known(c, credential, rules.pidOf(credential))
  {
    hide Spacious, AllSane;
    forall id | Known(c, credential, id)
      ensures credential in c.sessions && c.sessions[credential] == id
    {
      assert LeadsBack(c, id, rules);
    }
    if rules.pidOf(credential) in c.participants {
      assert LeadsBack(c, rules.pidOf(credential), rules);
    }
  }

  /**
    Someone whose credential is still known joins again, unless that connection
    is there already, all its connections are taken, or a viewer who turns out to
    be the creator finds no writer slot.
  */
  lemma ReturningJoins(
      c: Crowd, identity: Identity, creator: bool, generated: Result<string>, now: int, rules: Rules, id: Pid)
    requires Valid(c, rules) && rules.Proper() && !c.closed && now > 0
    requires Known(Sweep(c, false, now, rules), identity.credential, id)
    ensures
      var before := Sweep(c, false, now, rules);
      var (d, outcome) := Join(c, identity, creator, generated, false, now, rules);
      var p, k := before.participants[id], identity.connectionId;
      var active, full := k in p.connections, |p.connections| >= rules.maxConnections;
      var crowded := creator && p.access == Viewer && |WriterIds(before)| >= rules.maxWriters;
      && (outcome == Refused(SessionActive) <==> active)
      && (outcome == Refused(ConnectionLimit) <==> !active && full)
      && (outcome == Refused(ParticipantLimit) <==> !active && !full && crowded)
      && (outcome.Refused? ==> d == before && (active || full || crowded))
      && (outcome.Joined? ==>
            && outcome == Joined(Session(id, k, p.nextGeneration + 1), true)
            && id in d.participants && OnlyChanges(before, d, id)
            && var q := d.participants[id];
               && q == p.(access := if creator then Creator else p.access, nextGeneration := p.nextGeneration + 1,
                    connections := q.connections, disconnectedAt := 0)
               && q.connections == p.connections[k := Connection(p.nextGeneration + 1, now)])
  {
    hide Valid, Expired, Pruned, Linked, Spacious;
    SweepKeeps(c, false, now, rules);
    var before := Sweep(c, false, now, rules);
    SessionOfKnown(before, identity.credential, rules);
    CountedSlots(before);
  }

  /** The slots that are free for a newcomer. */
  ghost predicate MayWrite(c: Crowd, creator: bool, rules: Rules) {
    if creator then |WriterIds(c)| < rules.maxWriters else OpenSlots(c, rules) > 0
  }

  ghost predicate MayView(c: Crowd, creator: bool, rules: Rules) {
    !creator && |ViewerIds(c)| < rules.maxViewers
  }

  ghost predicate NameUsable(c: Crowd, name: string, rules: Rules) {
    name != "" && rules.nameKey(name) !in c.names
  }

  /** The newcomer's record. */
  ghost predicate Entrant(c: Crowd, q: Participant, identity: Identity, creator: bool, generated: Result<string>,
                          now: int, rules: Rules) {
    && q.access == (if creator then Creator else if MayWrite(c, creator, rules) then Collaborator else Viewer)
    && (NameUsable(c, identity.preferredName, rules) ==> q.nickname == identity.preferredName)
    && (!NameUsable(c, identity.preferredName, rules) ==> generated == Ok(q.nickname))
    && q.session == identity.credential
    && q.connections == map[identity.connectionId := Connection(1, now)]
  }

  /** How a newcomer's join ends and what it leaves. */
  ghost predicate LetIn(c: Crowd, d: Crowd, outcome: Outcome, identity: Identity, creator: bool,
                        generated: Result<string>, now: int, rules: Rules) {
    var id := rules.pidOf(identity.credential);
    var slot := MayWrite(c, creator, rules) || MayView(c, creator, rules);
    && (outcome == Refused(ParticipantLimit) <==> !slot)
    && (outcome == Refused(NoName) <==> slot && !NameUsable(c, identity.preferredName, rules) && generated.Err?)
    && (outcome.Refused? ==> d == c && outcome.reason in {ParticipantLimit, NoName})
    && (outcome.Joined? ==>
          && outcome == Joined(Session(id, identity.connectionId, 1), false)
          && id !in c.participants && id in d.participants && OnlyChanges(c, d, id)
          && Entrant(c, d.participants[id], identity, creator, generated, now, rules))
  }

  /**
    A newcomer is let in exactly if there is a slot: for the creator a writer
    slot, for anyone else a writer slot that is not kept back or else a viewer's.
    Writer slots go first. Otherwise only the lack of a name can stop it.
  */
  lemma NewcomerJoins(
      c: Crowd, identity: Identity, creator: bool, generated: Result<string>, now: int, rules: Rules)
    requires Valid(c, rules) && rules.Proper() && !c.closed && now > 0
    requires forall id :: !Known(Sweep(c, false, now, rules), identity.credential, id)
    ensures
      var (d, outcome) := Join(c, identity, creator, generated, false, now, rules);
      LetIn(Sweep(c, false, now, rules), d, outcome, identity, creator, generated, now, rules)
  {
    hide Expired, Pruned, Valid, Entered, LetIn;
    SweepKeeps(c, false, now, rules);
    var before := Sweep(c, false, now, rules);
    SessionOfKnown(before, identity.credential, rules);
    assert before.sessions - {identity.credential} == before.sessions;
    assert before.(sessions := before.sessions - {identity.credential}) == before;
    NewcomerEnters(before, identity, creator, generated, now, rules);
  }

  lemma NewcomerEnters(
      c: Crowd, identity: Identity, creator: bool, generated: Result<string>, now: int, rules: Rules)
    requires Valid(c, rules) && rules.Proper() && forall id :: !Known(c, identity.credential, id)
    ensures
      var (d, outcome) := Entered(c, identity, creator, generated, now, rules);
      LetIn(c, d, outcome, identity, creator, generated, now, rules)
  {
    hide Valid, AccessFor, MayWrite, MayView, Known;
    SessionOfKnown(c, identity.credential, rules);
    SlotTaken(c, creator, rules);
  }

  /** The slot a newcomer gets, if any. */
  lemma SlotTaken(c: Crowd, creator: bool, rules: Rules)
    requires Valid(c, rules) && rules.Proper()
    ensures |c.participants| >= rules.maxParticipants || AccessFor(c, creator, rules).Err? <==>
      !MayWrite(c, creator, rules) && !MayView(c, creator, rules)
    ensures MayWrite(c, creator, rules) || MayView(c, creator, rules) ==>
      AccessFor(c, creator, rules) ==
      Ok(if creator then Creator else if MayWrite(c, creator, rules) then Collaborator else Viewer)
  {
    hide Linked, AllSane, WriterIds, ViewerIds, CreatorPresent, HasCreator;
    CountedSlots(c);
  }

  // ----- Acting -----

  /** A participant takes a name that nobody else has, and gives up the old one. */
  lemma RenameLeaves(c: Crowd, session: Session, name: string, valid: bool, now: int, rules: Rules)
    requires Valid(c, rules) && MayAct(c, session)
    ensures
      var d, key := Rename(c, session, name, valid, false, now, rules), rules.nameKey(name);
      var p := c.participants[session.pid];
      var renames := valid && (key in c.names ==> c.names[key] == session.pid);
      && session.pid in d.participants && OnlyChanges(c, d, session.pid)
      && var q := d.participants[session.pid];
         && session.connectionId in q.connections && q.connections[session.connectionId].lastSeen == now
         && q.nickname == (if renames then name else p.nickname)
         && (renames ==> key in d.names && d.names[key] == session.pid
                         && (rules.nameKey(p.nickname) != key ==> rules.nameKey(p.nickname) !in d.names))
         && (!renames ==> d.names == c.names)
  {
    hide Linked, Spacious, AllSane;
  }

  /** Disconnecting takes away that connection only; the last one to go leaves its time as the loss time. */
  lemma DisconnectLeaves(c: Crowd, session: Session, now: int)
    requires Connects(c, session)
    ensures
      var d := Disconnect(c, session, now);
      && session.pid in d.participants && OnlyChanges(c, d, session.pid) && !Connects(d, session)
      && var p, q := c.participants[session.pid], d.participants[session.pid];
         && q == p.(connections := q.connections, disconnectedAt := q.disconnectedAt)
         && (forall k :: k in q.connections <==> k in p.connections && k != session.connectionId)
         && (forall k :: k in q.connections ==> q.connections[k] == p.connections[k])
         && q.disconnectedAt == if q.connections == map[] then now else p.disconnectedAt
  {
  }
}
