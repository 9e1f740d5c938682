/**
 A workspace store as one value: the entities, what each operation does to them, and what every
 operation keeps. Identifiers drawn at random, hashes of codes and the time are parameters.
 */
module WorkspaceModel {
  import opened Options
  import opened SafeText

  type Id = nat
  type Bytes = seq<bv8>

  datatype Public = Public(signing: Bytes, agreement: Bytes) {
    predicate Valid() { |signing| == 32 && |agreement| == 32 }
  }

  datatype Role = Owner | Admin | Plain
  datatype Status = Active | Revoked

  datatype Workspace = Workspace(slug: string, name: string, ownerId: Id, createdAt: int, defaultTrust: string)

  datatype Member = Member(workspaceId: Id, person: string, who: Public, role: Role, trust: string,
                           status: Status, invitedBy: Option<Id>, joinedAt: int, revokedAt: Option<int>)

  /** `expiresAt` is None for an invitation that does not expire. */
  datatype Invitation = Invitation(workspaceId: Id, codeHash: int, createdBy: Id, createdAt: int,
                                   expiresAt: Option<int>, maxUses: int, uses: nat, revokedAt: Option<int>)

  datatype Machine = Machine(memberId: Id, hostname: string, lastSeen: int)

  datatype Session = Session(machineId: Id, memberId: Id, name: string, status: string, lastSeen: int)

  /** A session as a connector reports it; without an identifier it is given a fresh one. */
  datatype Reported = Reported(id: Option<Id>, name: string, status: string)

  datatype DB = DB(workspaces: map<Id, Workspace>, members: map<Id, Member>, invitations: map<Id, Invitation>,
                   machines: map<Id, Machine>, sessions: map<Id, Session>)

  const EMPTY := DB(map[], map[], map[], map[], map[])

  datatype Why = WasRevoked | Expired | Spent

  /** The first reason to refuse an invitation, in the order of the checks. */
  function Unusable(inv: Invitation, now: int): Option<Why> {
    if inv.revokedAt.Some? then Some(WasRevoked)
    else if inv.expiresAt.Some? && now > inv.expiresAt.value then Some(Expired)
    else if inv.maxUses > 0 && inv.uses >= inv.maxUses then Some(Spent)
    else None
  }

  /** Each operation with what it draws: fresh identifiers, the time, and, for Redeem, the
      invitation and the member its two loops over unordered maps meet first. */
  datatype Op =
    | CreateWorkspace(slug: string, name: string, person: string, who: Public, workspaceId: Id, ownerId: Id, now: int)
    | CreateInvitation(inWorkspace: Id, createdBy: Id, ttl: int, maxUses: int, codeHash: int, invitationId: Id,
                       now: int)
    | Redeem(codeHash: int, person: string, who: Public, met: Option<Id>, existing: Option<Id>, newMember: Id, now: int)
    | Revoke(memberId: Id, now: int)
    | SetTrust(memberId: Id, trust: string)
    | ReplaceSessions(memberId: Id, machineId: Option<Id>, hostname: string, reported: seq<Reported>, freshMachine: Id,
                      freshSessions: seq<Id>, now: int)
    | DropMachine(machine: Id)

  datatype Reply =
    | Created(workspaceId: Id, ownerId: Id)
    | Invited(invitationId: Id)
    | Joined(memberId: Id)
    | Rejoined(memberId: Id)
    | Done
    | BadIdentity | NoSlug | BadField(why: Verdict) | Exists | NegativeLifetime
    | NotFound | CannotRedeem(reason: Option<Why>) | MemberRevoked | OwnerStays

  /** The store after an operation, its answer, and whether the file is written. */
  datatype Outcome = Outcome(db: DB, reply: Reply, writes: bool)

  function Refuse(db: DB, reply: Reply): Outcome { Outcome(db, reply, false) }

  predicate SlugTaken(db: DB, slug: string) {
    exists w :: w in db.workspaces && db.workspaces[w].slug == slug
  }

  /** The sessions for which `gone` does not hold. */
  function Keep(sessions: map<Id, Session>, gone: Session -> bool): map<Id, Session> {
    map id | id in sessions && !gone(sessions[id]) :: sessions[id]
  }

  function OfMember(member: Id): Session -> bool { (s: Session) => s.memberId == member }

  function OnMachine(machine: Id): Session -> bool { (s: Session) => s.machineId == machine }

  function ReportedId(reported: seq<Reported>, drawn: seq<Id>, i: nat): Id
    requires i < |reported| == |drawn|
  {
    if reported[i].id.Some? then reported[i].id.value else drawn[i]
  }

  /** The first `n` reported sessions inserted one after another, later ones over earlier ones. */
  function Insert(sessions: map<Id, Session>, reported: seq<Reported>, drawn: seq<Id>, machine: Id, member: Id,
                  now: int, n: nat): map<Id, Session>
    requires n <= |reported| == |drawn|
  {
    if n == 0 then sessions
    else Insert(sessions, reported, drawn, machine, member, now, n - 1)
         [ReportedId(reported, drawn, n - 1) :=
           Session(machine, member, reported[n - 1].name, reported[n - 1].status, now)]
  }

  /** The name a workspace is stored under when none was chosen is its slug. */
  function NameOr(name: string, slug: string): string {
    if TrimSpace(name) == "" then slug else name
  }

  function Lowered(lower: char -> char, s: string): string {
    seq(|s|, i requires 0 <= i < |s| => lower(s[i]))
  }

  function CreateWorkspaceOn(db: DB, op: Op): Outcome
    requires op.CreateWorkspace?
  {
    if SlugTaken(db, op.slug) then Refuse(db, Exists)
    else
      var w := Workspace(op.slug, NameOr(op.name, op.slug), op.ownerId, op.now, "collaborator");
      var owner := Member(op.workspaceId, op.person, op.who, Owner, w.defaultTrust, Active, None, op.now, None);
      Outcome(db.(workspaces := db.workspaces[op.workspaceId := w], members := db.members[op.ownerId := owner]),
              Created(op.workspaceId, op.ownerId), true)
  }

  function CreateInvitationOn(db: DB, op: Op): Outcome
    requires op.CreateInvitation?
  {
    if op.inWorkspace !in db.workspaces then Refuse(db, NotFound)
    else
      var inv := Invitation(op.inWorkspace, op.codeHash, op.createdBy, op.now,
                            if op.ttl > 0 then Some(op.now + op.ttl) else None, op.maxUses, 0, None);
      Outcome(db.(invitations := db.invitations[op.invitationId := inv]), Invited(op.invitationId), true)
  }

  predicate Matches(db: DB, i: Id, codeHash: int) {
    i in db.invitations && db.invitations[i].codeHash == codeHash
  }

  predicate IsExisting(db: DB, m: Id, workspace: Id, who: Public) {
    m in db.members && db.members[m].workspaceId == workspace && db.members[m].who == who
  }

  function RedeemOn(db: DB, op: Op): Outcome
    requires op.Redeem? && Drawn(db, op)
  {
    match op.met
      case None => Refuse(db, CannotRedeem(None))
      case Some(i) =>
        var inv := db.invitations[i];
        if Unusable(inv, op.now).Some? then Refuse(db, CannotRedeem(Unusable(inv, op.now)))
        else match op.existing
          case Some(m) =>
            if db.members[m].status == Active then Refuse(db, Rejoined(m)) else Refuse(db, MemberRevoked)
          case None =>
            var trust := if inv.workspaceId in db.workspaces then db.workspaces[inv.workspaceId].defaultTrust else "";
            var m := Member(inv.workspaceId, op.person, op.who, Plain, trust, Active, Some(inv.createdBy), op.now,
                            None);
            Outcome(db.(members := db.members[op.newMember := m],
                        invitations := db.invitations[i := inv.(uses := inv.uses + 1)]),
                    Joined(op.newMember), true)
  }

  function RevokeOn(db: DB, op: Op): Outcome
    requires op.Revoke?
  {
    if op.memberId !in db.members then Refuse(db, NotFound)
    else if db.members[op.memberId].role == Owner then Refuse(db, OwnerStays)
    else
      var m := db.members[op.memberId].(status := Revoked, revokedAt := Some(op.now));
      Outcome(db.(members := db.members[op.memberId := m], sessions := Keep(db.sessions, OfMember(op.memberId))), Done,
              true)
  }

  function SetTrustOn(db: DB, op: Op): Outcome
    requires op.SetTrust?
  {
    if op.memberId !in db.members then Refuse(db, NotFound)
    else Outcome(db.(members := db.members[op.memberId := db.members[op.memberId].(trust := op.trust)]), Done, true)
  }

  function MachineOf(op: Op): Id
    requires op.ReplaceSessions?
  {
    if op.machineId.Some? then op.machineId.value else op.freshMachine
  }

  function ReplaceSessionsOn(db: DB, op: Op): Outcome
    requires op.ReplaceSessions? && |op.reported| == |op.freshSessions|
  {
    if op.memberId !in db.members || db.members[op.memberId].status != Active then Refuse(db, NotFound)
    else
      var id := MachineOf(op);
      var kept := Keep(db.sessions, OnMachine(id));
      Outcome(db.(machines := db.machines[id := Machine(op.memberId, op.hostname, op.now)],
                  sessions := Insert(kept, op.reported, op.freshSessions, id, op.memberId, op.now, |op.reported|)),
              Done, true)
  }

  function DropMachineOn(db: DB, op: Op): Outcome
    requires op.DropMachine?
  {
    Outcome(db.(machines := db.machines - {op.machine}, sessions := Keep(db.sessions, OnMachine(op.machine))), Done,
            true)
  }

  /** What is refused at the door, before the store is even locked. */
  function AtTheDoor(op: Op): Option<Reply> {
    match op
    case CreateWorkspace(slug, name, person, who, _, _, _) =>
      if !who.Valid() then Some(BadIdentity)
      else if slug == "" then Some(NoSlug)
      else if CheckField(slug) != Accepted then Some(BadField(CheckField(slug)))
      else if CheckField(person) != Accepted then Some(BadField(CheckField(person)))
      else if name != "" && CheckField(name) != Accepted then Some(BadField(CheckField(name)))
      else None
    case CreateInvitation(_, _, ttl, _, _, _, _) =>
      if ttl < 0 then Some(NegativeLifetime) else None
    case Redeem(_, person, who, _, _, _, _) =>
      if !who.Valid() then Some(BadIdentity)
      else if CheckField(person) != Accepted then Some(BadField(CheckField(person)))
      else None
    case _ => None
  }

  /** What an operation draws fits the store it runs on: identifiers it makes up are new, and the
      invitation and the member it meets are ones its loops could meet, or there are none. */
  predicate Drawn(db: DB, op: Op) {
    match op
    case CreateWorkspace(_, _, _, _, w, o, _) => w !in db.workspaces && o !in db.members
    case CreateInvitation(_, _, _, _, _, i, _) => i !in db.invitations
    case Redeem(hash, _, who, found, existing, m, _) =>
      && m !in db.members
      && (match found
          case None => existing.None? && forall i :: i in db.invitations ==> db.invitations[i].codeHash != hash
          case Some(i) =>
            && Matches(db, i, hash)
            && match existing
               case Some(e) => IsExisting(db, e, db.invitations[i].workspaceId, who)
               case None => forall e :: e in db.members ==> !IsExisting(db, e, db.invitations[i].workspaceId, who))
    case ReplaceSessions(_, _, _, reported, machine, sessions, _) => |reported| == |sessions|
    case _ => true
  }

  function Apply(db: DB, op: Op): Outcome
    requires Drawn(db, op)
  {
    match op
    case CreateWorkspace(_, _, _, _, _, _, _) => CreateWorkspaceOn(db, op)
    case CreateInvitation(_, _, _, _, _, _, _) => CreateInvitationOn(db, op)
    case Redeem(_, _, _, _, _, _, _) => RedeemOn(db, op)
    case Revoke(_, _) => RevokeOn(db, op)
    case SetTrust(_, _) => SetTrustOn(db, op)
    case ReplaceSessions(_, _, _, _, _, _, _) => ReplaceSessionsOn(db, op)
    case DropMachine(_) => DropMachineOn(db, op)
  }

  /** An operation that does not write leaves the store as it was. */
  lemma NoWriteNoChange(db: DB, op: Op)
    requires Drawn(db, op) && !Apply(db, op).writes
    ensures Apply(db, op).db == db
  {
  }

  // ---------- What every operation keeps ----------

  type Members = map<Id, Member>
  type Workspaces = map<Id, Workspace>

  predicate Owns(members: Members, w: Id, o: Id) {
    && o in members
    && members[o].workspaceId == w && members[o].role == Owner && members[o].status == Active
  }

  predicate OwnersStand(workspaces: Workspaces, members: Members) {
    forall w :: w in workspaces ==> Owns(members, w, workspaces[w].ownerId)
  }

  predicate SlugsUnique(workspaces: Workspaces) {
    forall v, w :: v in workspaces && w in workspaces && v != w ==> workspaces[v].slug != workspaces[w].slug
  }

  predicate MembersPlaced(workspaces: Workspaces, members: Members) {
    forall m :: m in members ==> members[m].workspaceId in workspaces
  }

  predicate InvitationsPlaced(workspaces: Workspaces, invitations: map<Id, Invitation>) {
    forall i :: i in invitations ==> invitations[i].workspaceId in workspaces
  }

  /** Every invitation names a workspace that is there. */
  predicate Placed(db: DB) {
    InvitationsPlaced(db.workspaces, db.invitations)
  }

  predicate Backed(members: Members, machines: map<Id, Machine>, s: Session) {
    && s.memberId in members && members[s.memberId].status == Active
    && s.machineId in machines && machines[s.machineId].memberId == s.memberId
  }

  predicate SessionsBacked(members: Members, machines: map<Id, Machine>, sessions: map<Id, Session>) {
    forall s :: s in sessions ==> Backed(members, machines, sessions[s])
  }

  predicate SamePlace(a: Member, b: Member) {
    a.workspaceId == b.workspaceId && a.who == b.who
  }

  predicate IdentitiesUnique(members: Members) {
    forall m, n :: m in members && n in members && m != n ==> !SamePlace(members[m], members[n])
  }

  predicate UsesBounded(invitations: map<Id, Invitation>) {
    forall i :: i in invitations && invitations[i].maxUses > 0 ==> invitations[i].uses <= invitations[i].maxUses
  }

  predicate References(db: DB) {
    && OwnersStand(db.workspaces, db.members)
    && SlugsUnique(db.workspaces)
    && MembersPlaced(db.workspaces, db.members)
    && InvitationsPlaced(db.workspaces, db.invitations)
    && SessionsBacked(db.members, db.machines, db.sessions)
    && IdentitiesUnique(db.members)
    && UsesBounded(db.invitations)
  }

  // Changes to one map at a time.

  lemma AddWorkspace(db: DB, id: Id, w: Workspace, m: Member)
    requires References(db)
    requires id !in db.workspaces && w.ownerId !in db.members && !SlugTaken(db, w.slug)
    requires m.workspaceId == id && m.role == Owner && m.status == Active
    ensures References(db.(workspaces := db.workspaces[id := w], members := db.members[w.ownerId := m]))
  {
    var members := db.members[w.ownerId := m];
    NewMember(db, w.ownerId, m);
    forall v | v in db.workspaces ensures Owns(members, v, db.workspaces[v].ownerId) {
      assert Owns(db.members, v, db.workspaces[v].ownerId);
    }
  }

  lemma NewMember(db: DB, id: Id, m: Member)
    requires id !in db.members
    requires IdentitiesUnique(db.members) && forall e :: e in db.members ==> !SamePlace(db.members[e], m)
    requires SessionsBacked(db.members, db.machines, db.sessions)
    ensures IdentitiesUnique(db.members[id := m])
    ensures SessionsBacked(db.members[id := m], db.machines, db.sessions)
  {
    var members := db.members[id := m];
    forall s | s in db.sessions ensures Backed(members, db.machines, db.sessions[s]) {
      assert Backed(db.members, db.machines, db.sessions[s]);
    }
  }

  lemma PutInvitation(db: DB, id: Id, inv: Invitation)
    requires References(db)
    requires inv.workspaceId in db.workspaces && (inv.maxUses > 0 ==> inv.uses <= inv.maxUses)
    ensures References(db.(invitations := db.invitations[id := inv]))
  {
  }

  lemma AddMember(db: DB, id: Id, m: Member)
    requires References(db)
    requires id !in db.members && m.workspaceId in db.workspaces
    requires forall e :: e in db.members ==> !SamePlace(db.members[e], m)
    ensures References(db.(members := db.members[id := m]))
  {
    NewMember(db, id, m);
    forall w | w in db.workspaces ensures Owns(db.members[id := m], w, db.workspaces[w].ownerId) {
      assert Owns(db.members, w, db.workspaces[w].ownerId);
    }
  }

  lemma FewerSessions(db: DB, sessions: map<Id, Session>)
    requires References(db)
    requires forall s :: s in sessions ==> s in db.sessions && sessions[s] == db.sessions[s]
    ensures References(db.(sessions := sessions))
  {
  }

  lemma ChangeMember(db: DB, id: Id, m: Member)
    requires References(db) && id in db.members
    requires SamePlace(m, db.members[id]) && m.role == db.members[id].role
    requires m.status == db.members[id].status ||
             (m.role != Owner && forall s :: s in db.sessions ==> db.sessions[s].memberId != id)
    ensures References(db.(members := db.members[id := m]))
  {
    var members := db.members[id := m];
    forall s | s in db.sessions ensures Backed(members, db.machines, db.sessions[s]) {
      assert Backed(db.members, db.machines, db.sessions[s]);
    }
    forall w | w in db.workspaces ensures Owns(members, w, db.workspaces[w].ownerId) {
      assert Owns(db.members, w, db.workspaces[w].ownerId);
    }
    forall a, b | a in members && b in members && a != b ensures !SamePlace(members[a], members[b]) {
      assert !SamePlace(db.members[a], db.members[b]);
    }
  }

  lemma RemoveMachine(db: DB, machine: Id)
    requires References(db)
    requires forall s :: s in db.sessions ==> db.sessions[s].machineId != machine
    ensures References(db.(machines := db.machines - {machine}))
  {
    forall s | s in db.sessions ensures Backed(db.members, db.machines - {machine}, db.sessions[s]) {
      assert Backed(db.members, db.machines, db.sessions[s]);
    }
  }

  lemma PutMachine(db: DB, id: Id, machine: Machine, sessions: map<Id, Session>)
    requires References(db)
    requires machine.memberId in db.members && db.members[machine.memberId].status == Active
    requires forall s :: s in sessions ==>
               (s in db.sessions && sessions[s] == db.sessions[s] && sessions[s].machineId != id)
               || (sessions[s].machineId == id && sessions[s].memberId == machine.memberId)
    ensures References(db.(machines := db.machines[id := machine], sessions := sessions))
  {
    forall s | s in sessions ensures Backed(db.members, db.machines[id := machine], sessions[s]) {
      if s in db.sessions { assert Backed(db.members, db.machines, db.sessions[s]); }
    }
  }

  lemma {:induction false} InsertIs(sessions: map<Id, Session>, reported: seq<Reported>, drawn: seq<Id>, machine: Id,
                                    member: Id, now: int, n: nat)
    requires n <= |reported| == |drawn|
    ensures var r := Insert(sessions, reported, drawn, machine, member, now, n);
            && (forall s :: s in r <==> s in sessions || exists i :: 0 <= i < n && ReportedId(reported, drawn, i) == s)
            && (forall s :: s in r ==>
                  || (s in sessions && r[s] == sessions[s])
                  || (r[s].machineId == machine && r[s].memberId == member && r[s].lastSeen == now))
            && (forall i :: 0 <= i < n ==>
               var s := ReportedId(reported, drawn, i); r[s].machineId == machine && r[s].memberId == member)
            && (forall s :: s in sessions && (forall i :: 0 <= i < n ==> ReportedId(reported, drawn, i) != s) ==>
               r[s] == sessions[s])
  {
    if n > 0 {
      InsertIs(sessions, reported, drawn, machine, member, now, n - 1);
    }
  }

  /** No later report, up to the `n`th, names the same session. */
  predicate IsLast(reported: seq<Reported>, drawn: seq<Id>, i: nat, n: nat)
    requires i < n <= |reported| == |drawn|
  {
    forall j :: i < j < n ==> ReportedId(reported, drawn, j) != ReportedId(reported, drawn, i)
  }

  lemma {:induction false} InsertLast(sessions: map<Id, Session>, reported: seq<Reported>, drawn: seq<Id>, machine: Id,
                                      member: Id, now: int, n: nat, i: nat)
    requires i < n <= |reported| == |drawn| && IsLast(reported, drawn, i, n)
    ensures var r := Insert(sessions, reported, drawn, machine, member, now, n);
            var s := ReportedId(reported, drawn, i);
            s in r && r[s] == Session(machine, member, reported[i].name, reported[i].status, now)
  {
    if i < n - 1 {
      InsertLast(sessions, reported, drawn, machine, member, now, n - 1, i);
    }
  }

  lemma CreateWorkspaceKeeps(db: DB, op: Op)
    requires op.CreateWorkspace? && Drawn(db, op) && References(db)
    ensures References(CreateWorkspaceOn(db, op).db)
  {
    if !SlugTaken(db, op.slug) {
      var db' := CreateWorkspaceOn(db, op).db;
      AddWorkspace(db, op.workspaceId, db'.workspaces[op.workspaceId], db'.members[op.ownerId]);
    }
  }

  lemma CreateInvitationKeeps(db: DB, op: Op)
    requires op.CreateInvitation? && Drawn(db, op) && References(db)
    ensures References(CreateInvitationOn(db, op).db)
  {
    if op.inWorkspace in db.workspaces {
      PutInvitation(db, op.invitationId, CreateInvitationOn(db, op).db.invitations[op.invitationId]);
    }
  }

  /** What a redemption that writes has found and what it changes. */
  lemma RedeemWritten(db: DB, op: Op) returns (i: Id, inv: Invitation, m: Member)
    requires op.Redeem? && Drawn(db, op) && RedeemOn(db, op).writes
    ensures op.met == Some(i) && Matches(db, i, op.codeHash)
    ensures forall e :: e in db.members ==> !SamePlace(db.members[e], m)
    ensures m.workspaceId == db.invitations[i].workspaceId && m.who == op.who && m.status == Active && m.role == Plain
    ensures inv == db.invitations[i].(uses := db.invitations[i].uses + 1)
    ensures inv.maxUses > 0 ==> inv.uses <= inv.maxUses
    ensures RedeemOn(db, op).db ==
            db.(members := db.members[op.newMember := m], invitations := db.invitations[i := inv])
  {
    i := op.met.value;
    m := RedeemOn(db, op).db.members[op.newMember];
    inv := RedeemOn(db, op).db.invitations[i];
    forall e | e in db.members ensures !SamePlace(db.members[e], m) {
      assert !IsExisting(db, e, m.workspaceId, m.who);
    }
  }

  lemma RedeemKeeps(db: DB, op: Op)
    requires op.Redeem? && Drawn(db, op) && References(db)
    ensures References(RedeemOn(db, op).db)
  {
    if RedeemOn(db, op).writes {
      var i, inv, m := RedeemWritten(db, op);
      AddMember(db, op.newMember, m);
      PutInvitation(db.(members := db.members[op.newMember := m]), i, inv);
    } else {
      assert RedeemOn(db, op).db == db;
    }
  }

  lemma RevokeKeeps(db: DB, op: Op)
    requires op.Revoke? && Drawn(db, op) && References(db)
    ensures References(RevokeOn(db, op).db)
  {
    var out := RevokeOn(db, op);
    if out.writes {
      FewerSessions(db, out.db.sessions);
      ChangeMember(db.(sessions := out.db.sessions), op.memberId, out.db.members[op.memberId]);
    }
  }

  lemma SetTrustKeeps(db: DB, op: Op)
    requires op.SetTrust? && Drawn(db, op) && References(db)
    ensures References(SetTrustOn(db, op).db)
  {
    var out := SetTrustOn(db, op);
    if out.writes {
      ChangeMember(db, op.memberId, out.db.members[op.memberId]);
    }
  }

  lemma ReplaceSessionsKeeps(db: DB, op: Op)
    requires op.ReplaceSessions? && Drawn(db, op) && References(db)
    ensures References(ReplaceSessionsOn(db, op).db)
  {
    var out := ReplaceSessionsOn(db, op);
    if out.writes {
      var id := MachineOf(op);
      var kept := Keep(db.sessions, OnMachine(id));
      InsertIs(kept, op.reported, op.freshSessions, id, op.memberId, op.now, |op.reported|);
      PutMachine(db, id, out.db.machines[id], out.db.sessions);
    }
  }

  lemma DropMachineKeeps(db: DB, op: Op)
    requires op.DropMachine? && Drawn(db, op) && References(db)
    ensures References(DropMachineOn(db, op).db)
  {
    var out := DropMachineOn(db, op);
    FewerSessions(db, out.db.sessions);
    RemoveMachine(db.(sessions := out.db.sessions), op.machine);
  }

  /** Every operation keeps every reference: sessions backed by an active member and their
      machine, owners active, slugs and identities unique, uses within their limit. */
  lemma StepKeepsReferences(db: DB, op: Op)
    requires Drawn(db, op) && References(db)
    ensures References(Apply(db, op).db)
  {
    match op
    case CreateWorkspace(_, _, _, _, _, _, _) => CreateWorkspaceKeeps(db, op);
    case CreateInvitation(_, _, _, _, _, _, _) => CreateInvitationKeeps(db, op);
    case Redeem(_, _, _, _, _, _, _) => RedeemKeeps(db, op);
    case Revoke(_, _) => RevokeKeeps(db, op);
    case SetTrust(_, _) => SetTrustKeeps(db, op);
    case ReplaceSessions(_, _, _, _, _, _, _) => ReplaceSessionsKeeps(db, op);
    case DropMachine(_) => DropMachineKeeps(db, op);
  }

  // ---------- The counting law ----------

  ghost function MembersOf(members: Members, w: Id): set<Id> {
    set m | m in members && members[m].workspaceId == w
  }

  ghost function InvitationsOf(invitations: map<Id, Invitation>, w: Id): set<Id> {
    set i | i in invitations && invitations[i].workspaceId == w
  }

  ghost function SumUses(invitations: map<Id, Invitation>, ids: set<Id>): nat
    requires ids <= invitations.Keys
  {
    if ids == {} then 0
    else
      var i :| i in ids;
      invitations[i].uses + SumUses(invitations, ids - {i})
  }

  /** Members, revoked ones included, number one more than the redemptions. */
  ghost predicate Counted(db: DB, w: Id) {
    |MembersOf(db.members, w)| == 1 + SumUses(db.invitations, InvitationsOf(db.invitations, w))
  }

  ghost predicate AllCounted(db: DB) {
    forall w :: w in db.workspaces ==> Counted(db, w)
  }

  /** The sum does not depend on the order in which the invitations are taken. */
  lemma {:induction false} SumSplit(invitations: map<Id, Invitation>, ids: set<Id>, i: Id)
    requires ids <= invitations.Keys && i in ids
    ensures SumUses(invitations, ids) == invitations[i].uses + SumUses(invitations, ids - {i})
    decreases |ids|
  {
    var j :| j in ids && SumUses(invitations, ids) == invitations[j].uses + SumUses(invitations, ids - {j});
    if i != j {
      SumSplit(invitations, ids - {j}, i);
      SumSplit(invitations, ids - {i}, j);
      assert ids - {j} - {i} == ids - {i} - {j};
    }
  }

  lemma {:induction false} SumSame(a: map<Id, Invitation>, b: map<Id, Invitation>, ids: set<Id>)
    requires ids <= a.Keys && ids <= b.Keys
    requires forall i :: i in ids ==> a[i].uses == b[i].uses
    ensures SumUses(a, ids) == SumUses(b, ids)
    decreases |ids|
  {
    if ids != {} {
      var i :| i in ids;
      SumSplit(a, ids, i);
      SumSplit(b, ids, i);
      SumSame(a, b, ids - {i});
    }
  }

  lemma SumOneMore(a: map<Id, Invitation>, i: Id, inv: Invitation, w: Id)
    requires i in a && inv == a[i].(uses := a[i].uses + 1)
    ensures InvitationsOf(a[i := inv], w) == InvitationsOf(a, w)
    ensures SumUses(a[i := inv], InvitationsOf(a, w)) ==
            SumUses(a, InvitationsOf(a, w)) + if a[i].workspaceId == w then 1 else 0
  {
    var b, ids := a[i := inv], InvitationsOf(a, w);
    assert InvitationsOf(b, w) == ids;
    if i in ids {
      SumSplit(a, ids, i);
      SumSplit(b, ids, i);
      SumSame(a, b, ids - {i});
    } else {
      SumSame(a, b, ids);
    }
  }

  lemma SumUnused(a: map<Id, Invitation>, i: Id, inv: Invitation, w: Id)
    requires i !in a && inv.uses == 0
    ensures SumUses(a[i := inv], InvitationsOf(a[i := inv], w)) == SumUses(a, InvitationsOf(a, w))
  {
    var b := a[i := inv];
    if inv.workspaceId == w {
      assert InvitationsOf(b, w) == InvitationsOf(a, w) + {i};
      SumSplit(b, InvitationsOf(b, w), i);
      assert InvitationsOf(b, w) - {i} == InvitationsOf(a, w);
    } else {
      assert InvitationsOf(b, w) == InvitationsOf(a, w);
    }
    SumSame(a, b, InvitationsOf(a, w));
  }

  lemma OneMoreMember(members: Members, id: Id, m: Member, w: Id)
    requires id !in members
    ensures |MembersOf(members[id := m], w)| == |MembersOf(members, w)| + if m.workspaceId == w then 1 else 0
  {
    if m.workspaceId == w {
      assert MembersOf(members[id := m], w) == MembersOf(members, w) + {id};
    } else {
      assert MembersOf(members[id := m], w) == MembersOf(members, w);
    }
  }

  lemma CreateWorkspaceCounts(db: DB, op: Op)
    requires op.CreateWorkspace? && Drawn(db, op) && References(db) && AllCounted(db)
    ensures AllCounted(CreateWorkspaceOn(db, op).db)
  {
    var after := CreateWorkspaceOn(db, op).db;
    forall w | w in after.workspaces ensures Counted(after, w) {
      if CreateWorkspaceOn(db, op).writes {
        OneMoreMember(db.members, op.ownerId, after.members[op.ownerId], w);
        if w == op.workspaceId {
          assert MembersOf(db.members, w) == {};
          assert InvitationsOf(db.invitations, w) == {};
        } else {
          assert Counted(db, w);
        }
      } else {
        assert Counted(db, w);
      }
    }
  }

  lemma CreateInvitationCounts(db: DB, op: Op)
    requires op.CreateInvitation? && Drawn(db, op) && AllCounted(db)
    ensures AllCounted(CreateInvitationOn(db, op).db)
  {
    var after := CreateInvitationOn(db, op).db;
    forall w | w in after.workspaces ensures Counted(after, w) {
      assert Counted(db, w);
      if CreateInvitationOn(db, op).writes {
        SumUnused(db.invitations, op.invitationId, after.invitations[op.invitationId], w);
      }
    }
  }

  lemma RedeemCounts(db: DB, op: Op)
    requires op.Redeem? && Drawn(db, op) && AllCounted(db)
    ensures AllCounted(RedeemOn(db, op).db)
  {
    if RedeemOn(db, op).writes {
      var i, inv, m := RedeemWritten(db, op);
      var after := RedeemOn(db, op).db;
      forall w | w in after.workspaces ensures Counted(after, w) {
        assert Counted(db, w);
        OneMoreMember(db.members, op.newMember, m, w);
        SumOneMore(db.invitations, i, inv, w);
      }
    } else {
      assert RedeemOn(db, op).db == db;
    }
  }

  /** An operation that neither adds members nor redeems leaves every count alone. */
  lemma SameCounts(db: DB, after: DB)
    requires AllCounted(db) && after.workspaces == db.workspaces && after.invitations == db.invitations
    requires after.members.Keys == db.members.Keys
    requires forall m :: m in db.members ==> after.members[m].workspaceId == db.members[m].workspaceId
    ensures AllCounted(after)
  {
    forall w | w in after.workspaces ensures Counted(after, w) {
      assert Counted(db, w);
      assert MembersOf(after.members, w) == MembersOf(db.members, w);
    }
  }

  lemma RevokeCounts(db: DB, op: Op)
    requires op.Revoke? && AllCounted(db)
    ensures AllCounted(RevokeOn(db, op).db)
  {
    SameCounts(db, RevokeOn(db, op).db);
  }

  lemma SetTrustCounts(db: DB, op: Op)
    requires op.SetTrust? && AllCounted(db)
    ensures AllCounted(SetTrustOn(db, op).db)
  {
    SameCounts(db, SetTrustOn(db, op).db);
  }

  lemma ReplaceSessionsCounts(db: DB, op: Op)
    requires op.ReplaceSessions? && |op.reported| == |op.freshSessions| && AllCounted(db)
    ensures AllCounted(ReplaceSessionsOn(db, op).db)
  {
    SameCounts(db, ReplaceSessionsOn(db, op).db);
  }

  lemma StepKeepsCounts(db: DB, op: Op)
    requires Drawn(db, op) && References(db) && AllCounted(db)
    ensures AllCounted(Apply(db, op).db)
  {
    match op
    case CreateWorkspace(_, _, _, _, _, _, _) => CreateWorkspaceCounts(db, op);
    case CreateInvitation(_, _, _, _, _, _, _) => CreateInvitationCounts(db, op);
    case Redeem(_, _, _, _, _, _, _) => RedeemCounts(db, op);
    case Revoke(_, _) => RevokeCounts(db, op);
    case SetTrust(_, _) => SetTrustCounts(db, op);
    case ReplaceSessions(_, _, _, _, _, _, _) => ReplaceSessionsCounts(db, op);
    case DropMachine(_) => SameCounts(db, DropMachineOn(db, op).db);
  }

  // ---------- Names ----------

  /** Every person, slug and workspace name the store holds is one the boundary accepts. */
  predicate NamesAre(ok: string -> bool, db: DB) {
    PersonsAre(ok, db.members) && TitlesAre(ok, db.workspaces)
  }

  predicate PersonsAre(ok: string -> bool, members: map<Id, Member>) {
    forall m :: m in members ==> ok(members[m].person)
  }

  predicate TitlesAre(ok: string -> bool, workspaces: map<Id, Workspace>) {
    forall w :: w in workspaces ==> ok(workspaces[w].slug) && ok(workspaces[w].name)
  }

  lemma OneMorePerson(ok: string -> bool, members: map<Id, Member>, id: Id, m: Member)
    requires PersonsAre(ok, members) && ok(m.person)
    ensures PersonsAre(ok, members[id := m])
  {
  }

  lemma OneMoreTitle(ok: string -> bool, workspaces: map<Id, Workspace>, id: Id, w: Workspace)
    requires TitlesAre(ok, workspaces) && ok(w.slug) && ok(w.name)
    ensures TitlesAre(ok, workspaces[id := w])
  {
  }

  predicate NamesIn(ok: string -> bool, op: Op) {
    match op
    case CreateWorkspace(slug, name, person, _, _, _, _) => ok(slug) && ok(person) && ok(NameOr(name, slug))
    case Redeem(_, person, _, _, _, _, _) => ok(person)
    case _ => true
  }

  lemma CreateWorkspaceKeepsNames(ok: string -> bool, db: DB, op: Op)
    requires op.CreateWorkspace? && NamesAre(ok, db) && NamesIn(ok, op)
    ensures NamesAre(ok, CreateWorkspaceOn(db, op).db)
  {
    if !SlugTaken(db, op.slug) {
      var after := CreateWorkspaceOn(db, op).db;
      OneMorePerson(ok, db.members, op.ownerId, after.members[op.ownerId]);
      OneMoreTitle(ok, db.workspaces, op.workspaceId, after.workspaces[op.workspaceId]);
    }
  }

  lemma RedeemKeepsNames(ok: string -> bool, db: DB, op: Op)
    requires op.Redeem? && Drawn(db, op) && NamesAre(ok, db) && NamesIn(ok, op)
    ensures NamesAre(ok, RedeemOn(db, op).db)
  {
  }

  lemma OtherKeepsNames(ok: string -> bool, db: DB, op: Op)
    requires Drawn(db, op) && NamesAre(ok, db) && !op.CreateWorkspace? && !op.Redeem?
    ensures NamesAre(ok, Apply(db, op).db)
  {
  }

  lemma StepKeepsNames(ok: string -> bool, db: DB, op: Op)
    requires Drawn(db, op) && NamesAre(ok, db) && NamesIn(ok, op)
    ensures NamesAre(ok, Apply(db, op).db)
  {
    match op
    case CreateWorkspace(_, _, _, _, _, _, _) => CreateWorkspaceKeepsNames(ok, db, op);
    case Redeem(_, _, _, _, _, _, _) => RedeemKeepsNames(ok, db, op);
    case _ => OtherKeepsNames(ok, db, op);
  }

  predicate Acceptable(s: string) { CheckField(s) == Accepted }

  lemma DoorChecksNames(op: Op)
    requires AtTheDoor(op).None?
    ensures NamesIn(Acceptable, op)
  {
  }

  // ---------- Revocation ----------

  predicate IsRevoked(db: DB, m: Id) {
    m in db.members && db.members[m].status == Revoked
  }

  /** The sessions a member sees: those of the active members of the workspace, except its own. */
  function Roster(db: DB, workspace: Id, exclude: Id): set<Id> {
    set s | s in db.sessions
            && db.sessions[s].memberId in db.members
            && db.members[db.sessions[s].memberId].workspaceId == workspace
            && db.members[db.sessions[s].memberId].status == Active
            && db.sessions[s].memberId != exclude
  }

  lemma RevokedOwnsNothing(db: DB, m: Id)
    requires References(db) && IsRevoked(db, m)
    ensures forall s :: s in db.sessions ==> db.sessions[s].memberId != m
    ensures forall w, e, s :: s in Roster(db, w, e) ==> db.sessions[s].memberId != m
  {
    forall s | s in db.sessions ensures db.sessions[s].memberId != m {
      assert Backed(db.members, db.machines, db.sessions[s]);
    }
  }

  /** A code of the workspace does not bring a revoked identity back, whatever else is in the store. */
  lemma RevokedCannotRedeem(db: DB, op: Op, m: Id)
    requires References(db) && IsRevoked(db, m)
    requires op.Redeem? && Drawn(db, op) && op.met.Some?
    requires Unusable(db.invitations[op.met.value], op.now).None?
    requires IsExisting(db, m, db.invitations[op.met.value].workspaceId, op.who)
    ensures Apply(db, op) == Outcome(db, MemberRevoked, false)
  {
    OneExisting(db, op.existing.value, m, db.invitations[op.met.value].workspaceId, op.who);
  }

  lemma OneExisting(db: DB, e: Id, m: Id, workspace: Id, who: Public)
    requires IdentitiesUnique(db.members)
    requires IsExisting(db, e, workspace, who) && IsExisting(db, m, workspace, who)
    ensures e == m
  {
    assert SamePlace(db.members[e], db.members[m]);
  }

  lemma RevokedStays(db: DB, op: Op, m: Id)
    requires Drawn(db, op) && IsRevoked(db, m)
    ensures var after := Apply(db, op).db;
            IsRevoked(after, m) && SamePlace(after.members[m], db.members[m])
  {
  }

  /** Revoking touches one member and their sessions and nothing that belongs to anybody else. */
  lemma RevokeTouchesOneMember(db: DB, op: Op)
    requires op.Revoke? && Apply(db, op).writes
    ensures var after := Apply(db, op).db;
            && IsRevoked(after, op.memberId)
            && after.members - {op.memberId} == db.members - {op.memberId}
            && (forall s :: s in after.sessions <==> s in db.sessions && db.sessions[s].memberId != op.memberId)
            && (forall s :: s in after.sessions ==> after.sessions[s] == db.sessions[s])
            && after.workspaces == db.workspaces && after.invitations == db.invitations && after.machines == db.machines
  {
  }

  /** After a connector reports, its machine exposes exactly what was reported, each session as it was
      last reported and owned by the reporting member; every other session whose identifier was not
      reported is as it was, and nothing else but the machine itself changes. */
  lemma ReplaceSessionsExact(db: DB, op: Op)
    requires op.ReplaceSessions? && Drawn(db, op) && Apply(db, op).writes
    ensures var after := Apply(db, op).db;
            var named := set i | 0 <= i < |op.reported| :: ReportedId(op.reported, op.freshSessions, i);
            && (forall s :: s in after.sessions && after.sessions[s].machineId == MachineOf(op) <==> s in named)
            && (forall s :: s !in named && s in db.sessions && db.sessions[s].machineId != MachineOf(op) ==>
                  s in after.sessions && after.sessions[s] == db.sessions[s])
            && (forall s :: s in after.sessions && s !in named ==>
               s in db.sessions && after.sessions[s] == db.sessions[s])
            && (forall i :: 0 <= i < |op.reported| && IsLast(op.reported, op.freshSessions, i, |op.reported|) ==>
                 after.sessions[ReportedId(op.reported, op.freshSessions, i)]
                   == Session(MachineOf(op), op.memberId, op.reported[i].name, op.reported[i].status, op.now))
            && after == db.(machines := db.machines[MachineOf(op) := Machine(op.memberId, op.hostname, op.now)],
                            sessions := after.sessions)
  {
    var kept := Keep(db.sessions, OnMachine(MachineOf(op)));
    InsertIs(kept, op.reported, op.freshSessions, MachineOf(op), op.memberId, op.now, |op.reported|);
    forall i | 0 <= i < |op.reported| && IsLast(op.reported, op.freshSessions, i, |op.reported|)
      ensures Apply(db, op).db.sessions[ReportedId(op.reported, op.freshSessions, i)]
           == Session(MachineOf(op), op.memberId, op.reported[i].name, op.reported[i].status, op.now)
    {
      InsertLast(kept, op.reported, op.freshSessions, MachineOf(op), op.memberId, op.now, |op.reported|, i);
    }
    var named := set i | 0 <= i < |op.reported| :: ReportedId(op.reported, op.freshSessions, i);
    forall s ensures s in named
      <==> exists i :: 0 <= i < |op.reported| && ReportedId(op.reported, op.freshSessions, i) == s {
    }
  }

  // ---------- Runs ----------

  ghost predicate Sound(db: DB) {
    References(db) && AllCounted(db)
  }

  /** The states of a store from its creation on, each got from the one before by one operation. */
  ghost predicate IsRun(states: seq<DB>, ops: seq<Op>) {
    && |states| == |ops| + 1 && states[0] == EMPTY
    && forall i :: 0 <= i < |ops| ==> Drawn(states[i], ops[i]) && states[i + 1] == Apply(states[i], ops[i]).db
  }

  lemma {:induction false} RunIsSound(states: seq<DB>, ops: seq<Op>, n: nat)
    requires IsRun(states, ops) && n < |states|
    ensures Sound(states[n])
  {
    if n > 0 {
      RunIsSound(states, ops, n - 1);
      StepKeepsReferences(states[n - 1], ops[n - 1]);
      StepKeepsCounts(states[n - 1], ops[n - 1]);
    }
  }

  /** In every state of every run a workspace has one member more than its invitations were redeemed. */
  lemma CountingLaw(states: seq<DB>, ops: seq<Op>, n: nat, w: Id)
    requires IsRun(states, ops) && n < |states| && w in states[n].workspaces
    ensures |MembersOf(states[n].members, w)| ==
            1 + SumUses(states[n].invitations, InvitationsOf(states[n].invitations, w))
    ensures forall i :: i in states[n].invitations && states[n].invitations[i].maxUses > 0 ==>
              states[n].invitations[i].uses <= states[n].invitations[i].maxUses
  {
    RunIsSound(states, ops, n);
    assert Counted(states[n], w);
  }

  lemma {:induction false} RevokedStaysInRun(states: seq<DB>, ops: seq<Op>, i: nat, j: nat, m: Id)
    requires IsRun(states, ops) && i <= j < |states| && IsRevoked(states[i], m)
    ensures IsRevoked(states[j], m) && SamePlace(states[j].members[m], states[i].members[m])
    decreases j
  {
    if i < j {
      RevokedStaysInRun(states, ops, i, j - 1, m);
      RevokedStays(states[j - 1], ops[j - 1], m);
    }
  }

  /** Once revoked a member is revoked in every later state of every run, owns no session and
      appears in no roster, and its identity is refused every usable code of its workspace. */
  lemma RevocationIsPermanent(states: seq<DB>, ops: seq<Op>, i: nat, j: nat, m: Id)
    requires IsRun(states, ops) && i <= j < |states| && IsRevoked(states[i], m)
    ensures IsRevoked(states[j], m)
    ensures forall s :: s in states[j].sessions ==> states[j].sessions[s].memberId != m
    ensures forall w, e, s :: s in Roster(states[j], w, e) ==> states[j].sessions[s].memberId != m
    ensures forall op: Op ::
              op.Redeem? && Drawn(states[j], op) && op.met.Some?
              && states[j].invitations[op.met.value].workspaceId == states[i].members[m].workspaceId
              && op.who == states[i].members[m].who
              && Unusable(states[j].invitations[op.met.value], op.now).None?
              ==> Apply(states[j], op) == Outcome(states[j], MemberRevoked, false)
  {
    RunIsSound(states, ops, j);
    RevokedStaysInRun(states, ops, i, j, m);
    RevokedOwnsNothing(states[j], m);
    forall op: Op | op.Redeem? && Drawn(states[j], op) && op.met.Some?
              && states[j].invitations[op.met.value].workspaceId == states[i].members[m].workspaceId
              && op.who == states[i].members[m].who
              && Unusable(states[j].invitations[op.met.value], op.now).None?
      ensures Apply(states[j], op) == Outcome(states[j], MemberRevoked, false)
    {
      RevokedCannotRedeem(states[j], op, m);
    }
  }

  /** When every operation passed the boundary, every person, slug and workspace name in every state is
      a nonempty fixed point of Field. Session names and hostnames are not: see below. */
  lemma {:induction false} NamesAreClean(states: seq<DB>, ops: seq<Op>, n: nat)
    requires IsRun(states, ops) && n < |states|
    requires forall i :: 0 <= i < |ops| ==> AtTheDoor(ops[i]).None?
    ensures NamesAre(Acceptable, states[n])
  {
    if n > 0 {
      NamesAreClean(states, ops, n - 1);
      DoorChecksNames(ops[n - 1]);
      StepKeepsNames(Acceptable, states[n - 1], ops[n - 1]);
    }
  }

  /** What a session or a machine is called passes no boundary: any name at all can be stored. */
  lemma SessionNamesAreUnchecked(db: DB, memberId: Id, name: string) returns (op: Op)
    requires memberId in db.members && db.members[memberId].status == Active
    ensures AtTheDoor(op).None? && Drawn(db, op)
    ensures var after := Apply(db, op).db;
            && (exists s :: s in after.sessions && after.sessions[s].name == name)
            && (exists m :: m in after.machines && after.machines[m].hostname == name)
  {
    op := ReplaceSessions(memberId, None, name, [Reported(None, name, "idle")], 0, [0], 0);
    var after := Apply(db, op).db;
    var kept := Keep(db.sessions, OnMachine(0));
    assert Insert(kept, op.reported, op.freshSessions, 0, memberId, 0, 1)[0].name == name;
    assert 0 in after.sessions && after.sessions[0].name == name;
    assert 0 in after.machines && after.machines[0].hostname == name;
  }

  /** Every session name and hostname the store holds is of some kind. */
  predicate ExposedAre(ok: string -> bool, db: DB) {
    && (forall s :: s in db.sessions ==> ok(db.sessions[s].name))
    && (forall m :: m in db.machines ==> ok(db.machines[m].hostname))
  }

  /** A report of that kind: its hostname, and the last name it gives to each session. */
  predicate ReportIs(ok: string -> bool, op: Op)
    requires op.ReplaceSessions? && |op.reported| == |op.freshSessions|
  {
    && ok(op.hostname)
    && forall i :: 0 <= i < |op.reported| && IsLast(op.reported, op.freshSessions, i, |op.reported|) ==>
       ok(op.reported[i].name)
  }

  lemma {:induction false} LastReport(reported: seq<Reported>, drawn: seq<Id>, s: Id, n: nat) returns (i: nat)
    requires n <= |reported| == |drawn|
    requires exists k :: 0 <= k < n && ReportedId(reported, drawn, k) == s
    ensures i < n && ReportedId(reported, drawn, i) == s && IsLast(reported, drawn, i, n)
  {
    if ReportedId(reported, drawn, n - 1) == s {
      i := n - 1;
    } else {
      i := LastReport(reported, drawn, s, n - 1);
    }
  }

  lemma ReportedName(db: DB, op: Op, i: nat)
    requires op.ReplaceSessions? && Drawn(db, op) && Apply(db, op).writes
    requires i < |op.reported| && IsLast(op.reported, op.freshSessions, i, |op.reported|)
    ensures var s, after := ReportedId(op.reported, op.freshSessions, i), Apply(db, op).db;
            s in after.sessions && after.sessions[s].name == op.reported[i].name
  {
    InsertLast(Keep(db.sessions, OnMachine(MachineOf(op))), op.reported, op.freshSessions, MachineOf(op), op.memberId,
               op.now, |op.reported|, i);
  }

  lemma SpoiledReport(ok: string -> bool, db: DB, op: Op)
    requires op.ReplaceSessions? && Drawn(db, op) && Apply(db, op).writes && !ReportIs(ok, op)
    ensures !ExposedAre(ok, Apply(db, op).db)
  {
    var after := Apply(db, op).db;
    assert after.machines[MachineOf(op)].hostname == op.hostname;
    if ok(op.hostname) {
      var i :| 0 <= i < |op.reported| && IsLast(op.reported, op.freshSessions, i, |op.reported|)
        && !ok(op.reported[i].name);
      ReportedName(db, op, i);
    }
  }

  lemma SoundReport(ok: string -> bool, db: DB, op: Op)
    requires op.ReplaceSessions? && Drawn(db, op) && Apply(db, op).writes && ReportIs(ok, op) && ExposedAre(ok, db)
    ensures ExposedAre(ok, Apply(db, op).db)
  {
    var after := Apply(db, op).db;
    ReplaceSessionsExact(db, op);
    forall s | s in after.sessions ensures ok(after.sessions[s].name) {
      if exists k :: 0 <= k < |op.reported| && ReportedId(op.reported, op.freshSessions, k) == s {
        var i := LastReport(op.reported, op.freshSessions, s, |op.reported|);
        ReportedName(db, op, i);
      }
    }
  }

  lemma OtherKeepsExposed(ok: string -> bool, db: DB, op: Op)
    requires Drawn(db, op) && ExposedAre(ok, db) && !(op.ReplaceSessions? && Apply(db, op).writes)
    ensures ExposedAre(ok, Apply(db, op).db)
  {
    if op.ReplaceSessions? {
      NoWriteNoChange(db, op);
    }
  }

  /** The operation stores no report that is not of the kind. */
  predicate StoresOnly(ok: string -> bool, db: DB, op: Op)
    requires Drawn(db, op)
  {
    op.ReplaceSessions? && Apply(db, op).writes ==> ReportIs(ok, op)
  }

  /** What a session or a machine is called stays of some kind exactly when the reports that are
      accepted are of that kind. */
  lemma StepKeepsExposed(ok: string -> bool, db: DB, op: Op)
    requires Drawn(db, op) && ExposedAre(ok, db)
    ensures ExposedAre(ok, Apply(db, op).db) <==> StoresOnly(ok, db, op)
  {
    if !(op.ReplaceSessions? && Apply(db, op).writes) {
      OtherKeepsExposed(ok, db, op);
    } else if ReportIs(ok, op) {
      SoundReport(ok, db, op);
    } else {
      SpoiledReport(ok, db, op);
    }
  }

  ghost predicate AllExposed(ok: string -> bool, states: seq<DB>, n: nat)
    requires n < |states|
  {
    forall i :: 0 <= i <= n ==> ExposedAre(ok, states[i])
  }

  ghost predicate AllStoreOnly(ok: string -> bool, states: seq<DB>, ops: seq<Op>, n: nat)
    requires IsRun(states, ops) && n <= |ops|
  {
    forall i :: 0 <= i < n ==> StoresOnly(ok, states[i], ops[i])
  }

  lemma OneMoreExposed(ok: string -> bool, states: seq<DB>, n: nat)
    requires n + 1 < |states|
    ensures AllExposed(ok, states, n + 1) <==> AllExposed(ok, states, n) && ExposedAre(ok, states[n + 1])
  {
  }

  lemma OneMoreStored(ok: string -> bool, states: seq<DB>, ops: seq<Op>, n: nat)
    requires IsRun(states, ops) && n < |ops|
    ensures AllStoreOnly(ok, states, ops, n + 1)
            <==> AllStoreOnly(ok, states, ops, n) && StoresOnly(ok, states[n], ops[n])
  {
  }

  lemma RunStep(ok: string -> bool, states: seq<DB>, ops: seq<Op>, n: nat)
    requires IsRun(states, ops) && n < |ops| && ExposedAre(ok, states[n])
    ensures ExposedAre(ok, states[n + 1]) <==> StoresOnly(ok, states[n], ops[n])
  {
    StepKeepsExposed(ok, states[n], ops[n]);
  }

  lemma {:induction false} RunExposed(ok: string -> bool, states: seq<DB>, ops: seq<Op>, n: nat)
    requires IsRun(states, ops) && n < |states|
    ensures AllExposed(ok, states, n) <==> AllStoreOnly(ok, states, ops, n)
  {
    if n > 0 {
      RunExposed(ok, states, ops, n - 1);
      OneMoreExposed(ok, states, n - 1);
      OneMoreStored(ok, states, ops, n - 1);
      if AllExposed(ok, states, n - 1) {
        RunStep(ok, states, ops, n - 1);
      }
    }
  }

  /** The names sessions and machines have are accepted values in every state of a run exactly when every
      report that was stored was checked: its hostname, and the last name it gives to each session. */
  lemma SessionNamesAreClean(states: seq<DB>, ops: seq<Op>, n: nat)
    requires IsRun(states, ops) && n < |states|
    ensures (forall i :: 0 <= i <= n ==> ExposedAre(Acceptable, states[i]))
            <==> forall i :: 0 <= i < n ==> StoresOnly(Acceptable, states[i], ops[i])
  {
    RunExposed(Acceptable, states, ops, n);
    assert AllExposed(Acceptable, states, n) <==> AllStoreOnly(Acceptable, states, ops, n);
  }
}
