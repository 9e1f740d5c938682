/**
 What each operation of a workspace store answers and changes, said without the operation itself:
 who a code admits and until when, what a door lets through, and what a member sees.
 */
module WorkspaceEffects {
  import opened Options
  import opened SafeText
  import opened WorkspaceModel

  // ---------- Who a code admits ----------

  /** The invitation was made to last to that time at least. */
  predicate Lasts(inv: Invitation, now: int) {
    match inv.expiresAt
    case None => true
    case Some(end) => now <= end
  }

  /** There is a redemption left. */
  predicate HasRoom(inv: Invitation) {
    inv.maxUses <= 0 || inv.uses < inv.maxUses
  }

  predicate Admits(inv: Invitation, now: int) {
    inv.revokedAt.None? && Lasts(inv, now) && HasRoom(inv)
  }

  /** Nobody in the store has this identity in this workspace. */
  predicate IsStranger(db: DB, workspace: Id, who: Public) {
    forall m :: m in db.members ==> !(db.members[m].workspaceId == workspace && db.members[m].who == who)
  }

  /** A redemption adds a member exactly when an invitation with the code's hash was met that was not
      revoked, has not expired and has a use left, and the identity is not in its workspace yet. Any
      other redemption changes nothing. */
  lemma JoinsExactly(db: DB, op: Op)
    requires op.Redeem? && Drawn(db, op)
    ensures Apply(db, op).reply.Joined? <==>
            op.met.Some? && Admits(db.invitations[op.met.value], op.now)
            && IsStranger(db, db.invitations[op.met.value].workspaceId, op.who)
    ensures !Apply(db, op).reply.Joined? ==> Apply(db, op).db == db
  {
    if op.met.Some? {
      var w := db.invitations[op.met.value].workspaceId;
      assert op.existing.Some? ==> !IsStranger(db, w, op.who);
      assert op.existing.None? ==> IsStranger(db, w, op.who) by {
        if op.existing.None? {
          forall m | m in db.members ensures !(db.members[m].workspaceId == w && db.members[m].who == op.who) {
            assert !IsExisting(db, m, w, op.who);
          }
        }
      }
    }
  }

  /** Which refusal the invitation itself gives: no invitation with that hash, then the first of
      revoked, expired and spent. */
  lemma RefusalsExactly(db: DB, op: Op)
    requires op.Redeem? && Drawn(db, op)
    ensures Apply(db, op).reply == CannotRedeem(None) <==>
            forall i :: i in db.invitations ==> db.invitations[i].codeHash != op.codeHash
    ensures op.met.Some? ==>
              var inv, reply := db.invitations[op.met.value], Apply(db, op).reply;
              && (reply == CannotRedeem(Some(WasRevoked)) <==> inv.revokedAt.Some?)
              && (reply == CannotRedeem(Some(Expired)) <==> inv.revokedAt.None? && !Lasts(inv, op.now))
              && (reply == CannotRedeem(Some(Spent)) <==> inv.revokedAt.None? && Lasts(inv, op.now) && !HasRoom(inv))
  {
    if op.met.Some? {
      assert db.invitations[op.met.value].codeHash == op.codeHash;
    }
  }

  /** Where the code admits, an identity of the workspace is answered by its own membership if that is
      active, and refused if it was revoked; either way nothing changes. */
  lemma RejoinsExactly(db: DB, op: Op, m: Id)
    requires op.Redeem? && Drawn(db, op) && IdentitiesUnique(db.members)
    requires op.met.Some? && IsExisting(db, m, db.invitations[op.met.value].workspaceId, op.who)
    requires Admits(db.invitations[op.met.value], op.now)
    ensures Apply(db, op).reply == if db.members[m].status.Active? then Rejoined(m) else MemberRevoked
    ensures Apply(db, op).db == db
  {
    OneExisting(db, op.existing.value, m, db.invitations[op.met.value].workspaceId, op.who);
  }

  /** A join adds one member, with what the invitation and the workspace say of it, and uses the
      invitation once; nothing else changes. */
  lemma JoinAdds(db: DB, op: Op)
    requires op.Redeem? && Drawn(db, op) && Placed(db) && Apply(db, op).reply.Joined?
    ensures var inv, after := db.invitations[op.met.value], Apply(db, op).db;
            && Apply(db, op).reply == Joined(op.newMember)
            && op.newMember !in db.members && op.newMember in after.members
            && after.members - {op.newMember} == db.members
            && after.members[op.newMember] ==
                 Member(inv.workspaceId, op.person, op.who, Plain, db.workspaces[inv.workspaceId].defaultTrust, Active,
                        Some(inv.createdBy), op.now, None)
            && after.invitations == db.invitations[op.met.value := inv.(uses := inv.uses + 1)]
            && after.workspaces == db.workspaces && after.machines == db.machines && after.sessions == db.sessions
  {
  }

  // ---------- A code over whole runs ----------

  /** What a new invitation is: for that workspace, unused, and lasting as long as was asked for. */
  lemma InvitesExactly(db: DB, op: Op)
    requires op.CreateInvitation? && Drawn(db, op)
    ensures Apply(db, op).reply == (if op.inWorkspace in db.workspaces then Invited(op.invitationId) else NotFound)
    ensures Apply(db, op).reply.NotFound? ==> Apply(db, op).db == db
    ensures Apply(db, op).reply.Invited? ==>
              var after := Apply(db, op).db;
              && op.invitationId !in db.invitations && op.invitationId in after.invitations
              && after == db.(invitations := after.invitations)
              && after.invitations - {op.invitationId} == db.invitations
              && MadeBy(after.invitations[op.invitationId], op) && after.invitations[op.invitationId].uses == 0
  {
  }

  /** The invitation is the one that operation made, however often it was used since. */
  ghost predicate MadeBy(inv: Invitation, op: Op)
    requires op.CreateInvitation?
  {
    && inv.workspaceId == op.inWorkspace && inv.codeHash == op.codeHash && inv.createdBy == op.createdBy
    && inv.createdAt == op.now && inv.maxUses == op.maxUses && inv.revokedAt.None?
    && forall now :: Lasts(inv, now) <==> op.ttl <= 0 || now <= op.now + op.ttl
  }

  lemma UsedIsMadeBy(inv: Invitation, uses: nat, op: Op)
    requires op.CreateInvitation? && MadeBy(inv, op)
    ensures MadeBy(inv.(uses := uses), op)
  {
    forall now ensures Lasts(inv.(uses := uses), now) <==> Lasts(inv, now) {}
  }

  predicate JoinsBy(db: DB, op: Op, i: Id)
    requires Drawn(db, op)
  {
    op.Redeem? && op.met == Some(i) && Apply(db, op).reply.Joined?
  }

  /** How many members joined by that invitation in the first `n` steps. */
  ghost function Joins(states: seq<DB>, ops: seq<Op>, i: Id, n: nat): nat
    requires IsRun(states, ops) && n <= |ops|
  {
    if n == 0 then 0 else Joins(states, ops, i, n - 1) + if JoinsBy(states[n - 1], ops[n - 1], i) then 1 else 0
  }

  lemma StepKeepsInvitation(db: DB, op: Op, i: Id)
    requires Drawn(db, op) && i in db.invitations
    ensures var after, inv := Apply(db, op).db, db.invitations[i];
            && i in after.invitations
            && after.invitations[i] == inv.(uses := inv.uses + if JoinsBy(db, op, i) then 1 else 0)
  {
  }

  /** The invitation is drawn by no earlier step, so nobody joined by it before it was made. */
  lemma {:induction false} NoneBefore(states: seq<DB>, ops: seq<Op>, i: Id, n: nat)
    requires IsRun(states, ops) && n <= |ops| && i !in states[n].invitations
    ensures Joins(states, ops, i, n) == 0
  {
    if n > 0 {
      NobodyJoins(states, ops, i, n);
      NoneBefore(states, ops, i, n - 1);
    }
  }

  lemma NobodyJoins(states: seq<DB>, ops: seq<Op>, i: Id, n: nat)
    requires IsRun(states, ops) && 0 < n <= |ops| && i !in states[n].invitations
    ensures i !in states[n - 1].invitations && Joins(states, ops, i, n) == Joins(states, ops, i, n - 1)
  {
    WasAbsent(states[n - 1], ops[n - 1], i);
  }

  lemma WasAbsent(db: DB, op: Op, i: Id)
    requires Drawn(db, op) && i !in Apply(db, op).db.invitations
    ensures i !in db.invitations && !JoinsBy(db, op, i)
  {
  }

  /** The invitation made at step `k` is there, as it was made, used as often as members joined by it. */
  ghost predicate LivesAt(states: seq<DB>, ops: seq<Op>, k: nat, n: nat)
    requires IsRun(states, ops) && k < n <= |ops| && ops[k].CreateInvitation?
  {
    var i := ops[k].invitationId;
    && i in states[n].invitations && MadeBy(states[n].invitations[i], ops[k])
    && states[n].invitations[i].uses == Joins(states, ops, i, n)
  }

  lemma LivesFirst(states: seq<DB>, ops: seq<Op>, k: nat)
    requires IsRun(states, ops) && k < |ops|
    requires ops[k].CreateInvitation? && Apply(states[k], ops[k]).reply.Invited?
    ensures LivesAt(states, ops, k, k + 1)
  {
    InvitesExactly(states[k], ops[k]);
    NoneBefore(states, ops, ops[k].invitationId, k);
  }

  lemma LivesOn(states: seq<DB>, ops: seq<Op>, k: nat, n: nat)
    requires IsRun(states, ops) && k < n < |ops| && ops[k].CreateInvitation? && LivesAt(states, ops, k, n)
    ensures LivesAt(states, ops, k, n + 1)
  {
    var i := ops[k].invitationId;
    StepKeepsInvitation(states[n], ops[n], i);
    UsedIsMadeBy(states[n].invitations[i], states[n + 1].invitations[i].uses, ops[k]);
  }

  lemma {:induction false} InvitationLives(states: seq<DB>, ops: seq<Op>, k: nat, n: nat)
    requires IsRun(states, ops) && k < n <= |ops|
    requires ops[k].CreateInvitation? && Apply(states[k], ops[k]).reply.Invited?
    ensures LivesAt(states, ops, k, n)
    decreases n
  {
    if n == k + 1 {
      LivesFirst(states, ops, k);
    } else {
      InvitationLives(states, ops, k, n - 1);
      LivesOn(states, ops, k, n - 1);
    }
  }

  /** Over every run: a code admits a stranger exactly while its lifetime has not passed since the step
      that made it, if it was given one, and fewer have joined by it since than it was made for, if that
      was limited; and whoever joins is in the workspace it was made for. */
  lemma CodeAdmits(states: seq<DB>, ops: seq<Op>, k: nat, n: nat)
    requires IsRun(states, ops) && k < n < |ops|
    requires ops[k].CreateInvitation? && Apply(states[k], ops[k]).reply.Invited?
    requires ops[n].Redeem? && ops[n].met == Some(ops[k].invitationId)
    ensures Apply(states[n], ops[n]).reply.Joined? <==>
            && IsStranger(states[n], ops[k].inWorkspace, ops[n].who)
            && (ops[k].ttl <= 0 || ops[n].now <= ops[k].now + ops[k].ttl)
            && (ops[k].maxUses <= 0 || Joins(states, ops, ops[k].invitationId, n) < ops[k].maxUses)
    ensures Apply(states[n], ops[n]).reply.Joined? ==>
            && ops[n].newMember in states[n + 1].members
            && states[n + 1].members[ops[n].newMember].workspaceId == ops[k].inWorkspace
            && states[n + 1].members[ops[n].newMember].invitedBy == Some(ops[k].createdBy)
  {
    InvitationLives(states, ops, k, n);
    JoinsExactly(states[n], ops[n]);
  }

  // ---------- The other operations ----------

  /** A workspace is refused exactly when its slug is taken. */
  lemma SlugsExactly(db: DB, op: Op)
    requires op.CreateWorkspace? && Drawn(db, op)
    ensures Apply(db, op).reply == Exists <==> exists w :: w in db.workspaces && db.workspaces[w].slug == op.slug
    ensures Apply(db, op).reply == Exists ==> Apply(db, op).db == db
  {
  }

  /** Otherwise it comes about with its owner: named as was chosen or like its slug, its owner proposed
      at the same trust as everybody else. */
  lemma CreatesExactly(db: DB, op: Op)
    requires op.CreateWorkspace? && Drawn(db, op) && Apply(db, op).reply != Exists
    ensures Apply(db, op).reply == Created(op.workspaceId, op.ownerId)
    ensures op.workspaceId !in db.workspaces && op.ownerId !in db.members
    ensures var w := Workspace(op.slug, if All(IsSpace, op.name) then op.slug else op.name, op.ownerId, op.now,
                               "collaborator");
            var m := Member(op.workspaceId, op.person, op.who, Owner, "collaborator", Active, None, op.now, None);
            Apply(db, op).db == db.(workspaces := db.workspaces[op.workspaceId := w],
                                    members := db.members[op.ownerId := m])
  {
    TrimEmpty(IsSpace, op.name);
  }

  /** Revoking is refused for a member that is not there and for an owner, and only then; otherwise the
      member keeps everything but its status and the time. */
  lemma RevokesExactly(db: DB, op: Op)
    requires op.Revoke?
    ensures Apply(db, op).reply == (if op.memberId !in db.members then NotFound
                                    else if db.members[op.memberId].role == Owner then OwnerStays else Done)
    ensures Apply(db, op).reply == Done ==>
              Apply(db, op).db.members ==
              db.members[op.memberId := db.members[op.memberId].(status := Revoked, revokedAt := Some(op.now))]
    ensures Apply(db, op).reply != Done ==> Apply(db, op).db == db
  {
  }

  /** The trust proposed for a member becomes the one given, and nothing else changes. */
  lemma SetsTrustExactly(db: DB, op: Op)
    requires op.SetTrust?
    ensures op.memberId !in db.members ==> Apply(db, op) == Outcome(db, NotFound, false)
    ensures op.memberId in db.members ==>
              var after := Apply(db, op).db;
              && Apply(db, op).reply == Done && op.memberId in after.members
              && after.members[op.memberId].trust == op.trust
              && after.members[op.memberId].(trust := db.members[op.memberId].trust) == db.members[op.memberId]
              && after.members - {op.memberId} == db.members - {op.memberId}
              && after == db.(members := after.members)
  {
  }

  /** A machine that is dropped goes with its own sessions and no others. */
  lemma DropsExactly(db: DB, op: Op)
    requires op.DropMachine?
    ensures var after := Apply(db, op).db;
            && Apply(db, op).reply == Done
            && op.machine !in after.machines && after.machines == db.machines - {op.machine}
            && (forall s :: s in after.sessions <==> s in db.sessions && db.sessions[s].machineId != op.machine)
            && (forall s :: s in after.sessions ==> after.sessions[s] == db.sessions[s])
            && after == db.(machines := after.machines, sessions := after.sessions)
  {
  }

  /** A report is refused exactly when its member is not there or not active. It is filed under the
      machine it names, or under the new one when it names none, and each session under the identifier
      it has, or a new one. */
  lemma ReportsLand(db: DB, op: Op)
    requires op.ReplaceSessions? && Drawn(db, op)
    ensures var accepted := op.memberId in db.members && db.members[op.memberId].status == Active;
            Apply(db, op).reply == (if accepted then Done else NotFound) && Apply(db, op).writes == accepted
    ensures Apply(db, op).writes ==>
              var after := Apply(db, op).db;
              && (op.machineId.Some? ==> MachineOf(op) == op.machineId.value)
              && (op.machineId.None? ==> MachineOf(op) == op.freshMachine)
              && MachineOf(op) in after.machines
              && after.machines[MachineOf(op)] == Machine(op.memberId, op.hostname, op.now)
              && after.machines - {MachineOf(op)} == db.machines - {MachineOf(op)}
              && forall i :: 0 <= i < |op.reported| ==>
                   var id := match op.reported[i].id case Some(x) => x case None => op.freshSessions[i];
                   id in after.sessions && after.sessions[id].machineId == MachineOf(op)
  {
    if Apply(db, op).writes {
      ReplaceSessionsExact(db, op);
      forall i | 0 <= i < |op.reported|
        ensures ReportedId(op.reported, op.freshSessions, i) in Apply(db, op).db.sessions
             && Apply(db, op).db.sessions[ReportedId(op.reported, op.freshSessions, i)].machineId == MachineOf(op)
      {
        var named := set j | 0 <= j < |op.reported| :: ReportedId(op.reported, op.freshSessions, j);
        assert ReportedId(op.reported, op.freshSessions, i) in named;
      }
    }
  }

  // ---------- What a member sees ----------

  /** In a sound store a session is in the roster of a member exactly when its owner is somebody else of
      that workspace: the check on the owner's status never leaves one out. */
  lemma RosterExactly(db: DB, workspace: Id, asker: Id, s: Id)
    requires References(db)
    ensures s in Roster(db, workspace, asker) <==>
            && s in db.sessions && db.sessions[s].memberId != asker
            && db.sessions[s].memberId in MembersOf(db.members, workspace)
  {
    if s in db.sessions {
      assert Backed(db.members, db.machines, db.sessions[s]);
    }
  }

  /** Whatever the store, nobody sees a session of a revoked member, of themselves, or of elsewhere. */
  lemma RosterHides(db: DB, workspace: Id, asker: Id, s: Id)
    requires s in Roster(db, workspace, asker)
    ensures s in db.sessions && db.sessions[s].memberId != asker && !IsRevoked(db, db.sessions[s].memberId)
    ensures db.sessions[s].memberId in MembersOf(db.members, workspace)
  {
  }

  /** So every session of a sound store is seen by everybody of one workspace but its owner, and by
      nobody of any other. */
  lemma SeenByOneWorkspace(db: DB, s: Id) returns (home: Id)
    requires References(db) && s in db.sessions
    ensures forall w, asker :: s in Roster(db, w, asker) <==> w == home && asker != db.sessions[s].memberId
  {
    assert Backed(db.members, db.machines, db.sessions[s]);
    home := db.members[db.sessions[s].memberId].workspaceId;
    forall w, asker ensures s in Roster(db, w, asker) <==> w == home && asker != db.sessions[s].memberId {
      RosterExactly(db, w, asker, s);
    }
  }

  // ---------- What the door keeps out ----------

  /** What an operation brings from outside: identities, names and lifetimes. */
  predicate Presentable(op: Op) {
    match op
    case CreateWorkspace(slug, name, person, who, _, _, _) =>
      && |who.signing| == 32 && |who.agreement| == 32 && Acceptable(slug) && Acceptable(person)
      && (name == "" || Acceptable(name))
    case Redeem(_, person, who, _, _, _, _) => |who.signing| == 32 && |who.agreement| == 32 && Acceptable(person)
    case CreateInvitation(_, _, ttl, _, _, _, _) => ttl >= 0
    case _ => true
  }

  /** The door lets through exactly what is presentable. */
  lemma DoorExactly(op: Op)
    ensures AtTheDoor(op).None? <==> Presentable(op)
    ensures op.CreateInvitation? ==> AtTheDoor(op) == if op.ttl < 0 then Some(NegativeLifetime) else None
    ensures (op.CreateWorkspace? || op.Redeem?) && !op.who.Valid() ==> AtTheDoor(op) == Some(BadIdentity)
  {
    if op.CreateWorkspace? {
      CheckFieldAccepts(op.slug);
    }
  }

  /** Which refusal a creation gets at the door, the first in this order: an unusable identity, no slug, a
      slug, an owner's name or a workspace's name the boundary does not accept; a redemption likewise. */
  lemma DoorRefusals(op: Op)
    requires op.CreateWorkspace? || op.Redeem?
    ensures AtTheDoor(op) == Some(BadIdentity) <==> !(|op.who.signing| == 32 && |op.who.agreement| == 32)
    ensures AtTheDoor(op) == Some(NoSlug) <==> op.CreateWorkspace? && op.who.Valid() && op.slug == ""
    ensures op.Redeem? && op.who.Valid() && !Acceptable(op.person) ==>
              AtTheDoor(op) == Some(BadField(CheckField(op.person)))
    ensures op.CreateWorkspace? && op.who.Valid() && op.slug != "" && !Presentable(op) ==>
              AtTheDoor(op) == Some(BadField(CheckField(
                                  if !Acceptable(op.slug) then op.slug
                                  else if !Acceptable(op.person) then op.person
                                  else op.name)))
  {
  }

  predicate Identified(members: map<Id, Member>) {
    forall m :: m in members ==> |members[m].who.signing| == 32 && |members[m].who.agreement| == 32
  }

  predicate Timely(invitations: map<Id, Invitation>) {
    forall i :: i in invitations && invitations[i].expiresAt.Some? ==>
      invitations[i].expiresAt.value > invitations[i].createdAt
  }

  /** Every identity in the store has two keys of 32 bytes, and no invitation expires before it is made. */
  predicate Vetted(db: DB) {
    Identified(db.members) && Timely(db.invitations)
  }

  lemma OneMoreIdentified(members: map<Id, Member>, id: Id, m: Member)
    requires Identified(members) && m.who.Valid()
    ensures Identified(members[id := m])
  {
  }

  lemma JoinKeepsVetted(db: DB, op: Op)
    requires op.Redeem? && Drawn(db, op) && Vetted(db) && op.who.Valid()
    ensures Vetted(Apply(db, op).db)
  {
    if RedeemOn(db, op).writes {
      var i, inv, m := RedeemWritten(db, op);
      OneMoreIdentified(db.members, op.newMember, m);
    } else {
      NoWriteNoChange(db, op);
    }
  }

  lemma CreateKeepsVetted(db: DB, op: Op)
    requires op.CreateWorkspace? && Drawn(db, op) && Vetted(db) && op.who.Valid()
    ensures Vetted(Apply(db, op).db)
  {
    if Apply(db, op).writes {
      OneMoreIdentified(db.members, op.ownerId, Apply(db, op).db.members[op.ownerId]);
    } else {
      NoWriteNoChange(db, op);
    }
  }

  lemma OtherKeepsVetted(db: DB, op: Op)
    requires Drawn(db, op) && Vetted(db) && !op.CreateWorkspace? && !op.Redeem?
    ensures Vetted(Apply(db, op).db)
  {
  }

  lemma StepKeepsVetted(db: DB, op: Op)
    requires Drawn(db, op) && Vetted(db) && AtTheDoor(op).None?
    ensures Vetted(Apply(db, op).db)
  {
    DoorExactly(op);
    if op.CreateWorkspace? {
      CreateKeepsVetted(db, op);
    } else if op.Redeem? {
      JoinKeepsVetted(db, op);
    } else {
      OtherKeepsVetted(db, op);
    }
  }

  lemma {:induction false} RunIsVetted(states: seq<DB>, ops: seq<Op>, n: nat)
    requires IsRun(states, ops) && n < |states|
    requires forall i :: 0 <= i < |ops| ==> AtTheDoor(ops[i]).None?
    ensures Vetted(states[n])
  {
    if n > 0 {
      RunIsVetted(states, ops, n - 1);
      StepKeepsVetted(states[n - 1], ops[n - 1]);
    }
  }
}
