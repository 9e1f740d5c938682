/**
 The store as the object it is: five maps its methods change in place, each method proved
 against the operation it stands for. The file and the lock around a method are in
 SharedStore.dfy.
 */
module Store {
  import opened Options
  import opened SafeText
  import opened WorkspaceModel

  class Store {
    var workspaces: map<Id, Workspace>
    var members: map<Id, Member>
    var invitations: map<Id, Invitation>
    var machines: map<Id, Machine>
    var sessions: map<Id, Session>

    function State(): DB
      reads this
    {
      DB(workspaces, members, invitations, machines, sessions)
    }

    /** The answer and the new state are those of the operation. */
    twostate predicate Ran(op: Op, reply: Reply)
      reads this
    {
      Drawn(old(State()), op) && reply == Apply(old(State()), op).reply && State() == Apply(old(State()), op).db
    }

    /** Either the door refused the operation and nothing changed, or it ran. */
    twostate predicate Did(op: Op, reply: Reply)
      reads this
    {
      if AtTheDoor(op).Some? then reply == AtTheDoor(op).value && State() == old(State()) else Ran(op, reply)
    }

    constructor ()
      ensures State() == EMPTY
    {
      workspaces, members, invitations, machines, sessions := map[], map[], map[], map[], map[];
    }

    method FindSlug(slug: string) returns (taken: bool)
      ensures taken == SlugTaken(State(), slug)
    {
      var todo := workspaces.Keys;
      while todo != {}
        invariant todo <= workspaces.Keys
        invariant forall w :: w in workspaces && w !in todo ==> workspaces[w].slug != slug
        decreases todo
      {
        var w :| w in todo;
        if workspaces[w].slug == slug { return true; }
        todo := todo - {w};
      }
      return false;
    }

    method AddWorkspace(op: Op) returns (reply: Reply)
      requires op.CreateWorkspace? && Drawn(State(), op)
      modifies this
      ensures Ran(op, reply)
    {
      var taken := FindSlug(op.slug);
      if taken { return Exists; }
      var w := Workspace(op.slug, NameOr(op.name, op.slug), op.ownerId, op.now, "collaborator");
      var owner := Member(op.workspaceId, op.person, op.who, Owner, w.defaultTrust, Active, None, op.now, None);
      workspaces := workspaces[op.workspaceId := w];
      members := members[op.ownerId := owner];
      return Created(op.workspaceId, op.ownerId);
    }

    /** The slug is trimmed and lowered before anything else; `lower` is the lower case of a character. */
    method CreateWorkspace(slug: string, name: string, person: string, who: Public, workspaceId: Id, ownerId: Id,
                           now: int, lower: char -> char)
      returns (reply: Reply)
      requires workspaceId !in workspaces && ownerId !in members
      modifies this
      ensures Did(Op.CreateWorkspace(Lowered(lower, TrimSpace(slug)), name, person, who, workspaceId, ownerId, now),
                  reply)
    {
      var slug := Lowered(lower, TrimSpace(slug));
      var op := Op.CreateWorkspace(slug, name, person, who, workspaceId, ownerId, now);
      var refused := AtTheDoor(op);
      if refused.Some? { return refused.value; }
      reply := AddWorkspace(op);
    }

    method CreateInvitation(workspaceId: Id, createdBy: Id, ttl: int, maxUses: int, codeHash: int, invitationId: Id,
                            now: int)
      returns (reply: Reply)
      requires invitationId !in invitations
      modifies this
      ensures Did(Op.CreateInvitation(workspaceId, createdBy, ttl, maxUses, codeHash, invitationId, now), reply)
    {
      if ttl < 0 { return NegativeLifetime; }
      if workspaceId !in workspaces { return NotFound; }
      var inv := Invitation(workspaceId, codeHash, createdBy, now, None, maxUses, 0, None);
      if ttl > 0 {
        inv := inv.(expiresAt := Some(now + ttl));
      }
      invitations := invitations[invitationId := inv];
      return Invited(invitationId);
    }

    /** The member of a workspace with an identity, if the loop over the members meets one. */
    method FindExisting(workspaceId: Id, who: Public) returns (existing: Option<Id>)
      ensures existing.Some? ==> IsExisting(State(), existing.value, workspaceId, who)
      ensures existing.None? ==> forall m :: m in members ==> !IsExisting(State(), m, workspaceId, who)
    {
      var todo := members.Keys;
      while todo != {}
        invariant todo <= members.Keys
        invariant forall m :: m in members && m !in todo ==> !IsExisting(State(), m, workspaceId, who)
        decreases todo
      {
        var m :| m in todo;
        if members[m].workspaceId == workspaceId && members[m].who == who { return Some(m); }
        todo := todo - {m};
      }
      return None;
    }

    /** The invitation a code opens, if the loop over the invitations meets one. */
    method FindInvitation(codeHash: int) returns (met: Option<Id>)
      ensures met.Some? ==> Matches(State(), met.value, codeHash)
      ensures met.None? ==> forall i :: i in invitations ==> invitations[i].codeHash != codeHash
    {
      var todo := invitations.Keys;
      while todo != {}
        invariant todo <= invitations.Keys
        invariant forall i :: i in invitations && i !in todo ==> invitations[i].codeHash != codeHash
        decreases todo
      {
        var i :| i in todo;
        if invitations[i].codeHash == codeHash { return Some(i); }
        todo := todo - {i};
      }
      return None;
    }

    method Join(op: Op) returns (reply: Reply)
      requires op.Redeem? && Drawn(State(), op) && op.met.Some?
      requires Placed(State())
      modifies this
      ensures Ran(op, reply)
    {
      var i := op.met.value;
      var inv := invitations[i];
      var unusable := Unusable(inv, op.now);
      if unusable.Some? { return CannotRedeem(unusable); }
      if op.existing.Some? {
        if members[op.existing.value].status != Active { return MemberRevoked; }
        return Rejoined(op.existing.value);
      }
      var w := workspaces[inv.workspaceId];
      var m := Member(inv.workspaceId, op.person, op.who, Plain, w.defaultTrust, Active, Some(inv.createdBy), op.now,
                      None);
      members := members[op.newMember := m];
      invitations := invitations[i := inv.(uses := inv.uses + 1)];
      return Joined(op.newMember);
    }

    /** Redeem, telling which invitation and which member its loops met. */
    method Redeem(codeHash: int, person: string, who: Public, newMember: Id, now: int)
      returns (reply: Reply, met: Option<Id>, existing: Option<Id>)
      requires newMember !in members && Placed(State())
      modifies this
      ensures Did(Op.Redeem(codeHash, person, who, met, existing, newMember, now), reply)
    {
      met, existing := None, None;
      var refused := AtTheDoor(Op.Redeem(codeHash, person, who, None, None, newMember, now));
      if refused.Some? { return refused.value, None, None; }
      met := FindInvitation(codeHash);
      if met.None? { return CannotRedeem(None), None, None; }
      existing := FindExisting(invitations[met.value].workspaceId, who);
      reply := Join(Op.Redeem(codeHash, person, who, met, existing, newMember, now));
    }

    /** The loop that deletes sessions while it walks over them. */
    method DeleteSessions(gone: Session -> bool)
      modifies this`sessions
      ensures sessions == Keep(old(sessions), gone)
    {
      var todo := sessions.Keys;
      while todo != {}
        invariant todo <= old(sessions).Keys
        invariant sessions == map s | s in old(sessions) && (s in todo || !gone(old(sessions)[s])) :: old(sessions)[s]
        decreases todo
      {
        var s :| s in todo;
        assert s in sessions;
        if gone(sessions[s]) {
          sessions := sessions - {s};
        }
        todo := todo - {s};
      }
    }

    method Revoke(memberId: Id, now: int) returns (reply: Reply)
      modifies this
      ensures Did(Op.Revoke(memberId, now), reply)
    {
      if memberId !in members { return NotFound; }
      if members[memberId].role == Owner { return OwnerStays; }
      members := members[memberId := members[memberId].(status := Revoked, revokedAt := Some(now))];
      DeleteSessions(OfMember(memberId));
      return Done;
    }

    method SetTrust(memberId: Id, trust: string) returns (reply: Reply)
      modifies this
      ensures Did(Op.SetTrust(memberId, trust), reply)
    {
      if memberId !in members { return NotFound; }
      members := members[memberId := members[memberId].(trust := trust)];
      return Done;
    }

    method ReplaceSessions(memberId: Id, machineId: Option<Id>, hostname: string, reported: seq<Reported>,
                           freshMachine: Id, freshSessions: seq<Id>, now: int)
      returns (reply: Reply)
      requires |reported| == |freshSessions|
      modifies this
      ensures Did(Op.ReplaceSessions(memberId, machineId, hostname, reported, freshMachine, freshSessions, now), reply)
    {
      if memberId !in members || members[memberId].status != Active { return NotFound; }
      var id := if machineId.Some? then machineId.value else freshMachine;
      machines := machines[id := Machine(memberId, hostname, now)];
      DeleteSessions(OnMachine(id));
      ghost var kept := sessions;
      for i := 0 to |reported|
        invariant sessions == Insert(kept, reported, freshSessions, id, memberId, now, i)
        invariant workspaces == old(workspaces) && members == old(members) && invitations == old(invitations)
        invariant machines == old(machines)[id := Machine(memberId, hostname, now)]
      {
        var s := if reported[i].id.Some? then reported[i].id.value else freshSessions[i];
        sessions := sessions[s := Session(id, memberId, reported[i].name, reported[i].status, now)];
      }
      return Done;
    }

    method DropMachine(machineId: Id) returns (reply: Reply)
      modifies this
      ensures Did(Op.DropMachine(machineId), reply)
    {
      machines := machines - {machineId};
      DeleteSessions(OnMachine(machineId));
      return Done;
    }

    method RosterOf(workspaceId: Id, exclude: Id) returns (out: set<Id>)
      ensures out == Roster(State(), workspaceId, exclude)
    {
      var active: set<Id> := {};
      var todo := members.Keys;
      while todo != {}
        invariant todo <= members.Keys
        invariant active == set m | m in members && m !in todo && members[m].workspaceId == workspaceId
                  && members[m].status == Active
        decreases todo
      {
        var m :| m in todo;
        if members[m].workspaceId == workspaceId && members[m].status == Active {
          active := active + {m};
        }
        todo := todo - {m};
      }
      out := {};
      todo := sessions.Keys;
      while todo != {}
        invariant todo <= sessions.Keys
        invariant out == set s | s in sessions && s !in todo && sessions[s].memberId in active
                  && sessions[s].memberId != exclude
        decreases todo
      {
        var s :| s in todo;
        todo := todo - {s};
        if sessions[s].memberId !in active || sessions[s].memberId == exclude { continue; }
        out := out + {s};
      }
    }
  }
}
