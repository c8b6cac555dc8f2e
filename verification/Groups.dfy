/**
 Group membership: one conversation document with its participants and a member count, and one member
 document per user. Every operation writes the two in separate steps.
 */
module Groups {
  import opened Bytes

  const OWNER := "OWNER"
  const ADMIN := "ADMIN"
  const MEMBER := "MEMBER"

  datatype Member = Member(role: string, active: bool)
  datatype Group = Group(participants: set<Str>, count: int, members: map<Str, Member>)

  /** One update of one document. */
  datatype Write =
    | Activate(user: Str, role: string)   // upsert of the member
    | Deactivate(user: Str)               // no member, no effect
    | Join(user: Str)                     // $addToSet, and $inc by 1 whether or not it adds
    | Part(user: Str)                     // $pull, and $inc by -1 whether or not it removes
    | SetRoleIfActive(user: Str, role: string)
    | SetRole(user: Str, role: string)

  datatype Op =
    | Add(user: Str, role: string)
    | Remove(user: Str)
    | Leave(user: Str)
    | Promote(user: Str)
    | Transfer(current: Str, successor: Str)

  predicate IsActive(g: Group, u: Str) {
    u in g.members && g.members[u].active
  }

  function Active(g: Group): set<Str> {
    set u | u in g.members && g.members[u].active
  }

  function Owners(g: Group): set<Str> {
    set u | u in g.members && g.members[u].active && g.members[u].role == OWNER
  }

  function WithRole(g: Group, u: Str, role: string): Group {
    if u in g.members then g.(members := g.members[u := g.members[u].(role := role)]) else g
  }

  function Written(g: Group, w: Write): Group {
    match w
    case Activate(u, role) => g.(members := g.members[u := Member(role, true)])
    case Deactivate(u) =>
      if u in g.members then g.(members := g.members[u := g.members[u].(active := false)]) else g
    case Join(u) => g.(participants := g.participants + {u}, count := g.count + 1)
    case Part(u) => g.(participants := g.participants - {u}, count := g.count - 1)
    case SetRoleIfActive(u, role) => if IsActive(g, u) then WithRole(g, u, role) else g
    case SetRole(u, role) => WithRole(g, u, role)
  }

  function WrittenAll(g: Group, ws: seq<Write>): Group {
    if ws == [] then g else Written(WrittenAll(g, ws[..|ws| - 1]), ws[|ws| - 1])
  }

  /** The writes of an operation, in the order it makes them. */
  function Writes(op: Op): seq<Write> {
    match op
    case Add(u, role) => [Activate(u, if role == "" then MEMBER else role), Join(u)]
    case Remove(u) => [Deactivate(u), Part(u)]
    case Leave(u) => [Deactivate(u), Part(u)]
    case Promote(u) => [SetRoleIfActive(u, ADMIN)]
    case Transfer(current, successor) =>
      [SetRoleIfActive(successor, OWNER)] + if current == [] then [] else [SetRole(current, ADMIN)]
  }

  function Done(g: Group, op: Op): Group {
    WrittenAll(g, Writes(op))
  }

  function DoneAll(g: Group, ops: seq<Op>): Group {
    if ops == [] then g else Done(DoneAll(g, ops[..|ops| - 1]), ops[|ops| - 1])
  }

  function Everyone(createdBy: Str, memberIDs: seq<Str>): set<Str> {
    {createdBy} + set m | m in memberIDs && m != []
  }

  function Enrolled(createdBy: Str, all: set<Str>): map<Str, Member> {
    map m | m in all :: Member(if m == createdBy then OWNER else MEMBER, true)
  }

  function Created(createdBy: Str, memberIDs: seq<Str>): Group {
    var all := Everyone(createdBy, memberIDs);
    Group(all, |all|, Enrolled(createdBy, all))
  }

  lemma EveryoneSnoc(createdBy: Str, front: seq<Str>, m: Str)
    ensures Everyone(createdBy, front + [m]) == Everyone(createdBy, front) + if m == [] then {} else {m}
  {
  }

  lemma EnrolledMore(createdBy: Str, all: set<Str>, m: Str)
    ensures Enrolled(createdBy, all)[m := Member(if m == createdBy then OWNER else MEMBER, true)] == Enrolled(createdBy, all + {m})
  {
  }

  lemma WritesUnfold(g: Group, op: Op)
    ensures Done(g, op) ==
            match op
            case Add(u, role) => Written(Written(g, Activate(u, if role == "" then MEMBER else role)), Join(u))
            case Remove(u) => Written(Written(g, Deactivate(u)), Part(u))
            case Leave(u) => Written(Written(g, Deactivate(u)), Part(u))
            case Promote(u) => Written(g, SetRoleIfActive(u, ADMIN))
            case Transfer(current, successor) =>
              var h := Written(g, SetRoleIfActive(successor, OWNER));
              if current == [] then h else Written(h, SetRole(current, ADMIN))
  {
    var ws := Writes(op);
    assert WrittenAll(g, ws[..0]) == g;
    assert ws[..1][..0] == ws[..0] && WrittenAll(g, ws[..1]) == Written(g, ws[0]);
    if |ws| == 1 {
      assert ws[..1] == ws;
    }
  }

  /** The documents of one group, written through the repository's operations. */
  class Repository {
    var participants: set<Str>
    var count: int
    var members: map<Str, Member>

    ghost function State(): Group
      reads this
    {
      Group(participants, count, members)
    }

    constructor ()
    {
    }

    method Create(name: Str, createdBy: Str, memberIDs: seq<Str>) returns (ok: bool)
      modifies this
      ensures ok <==> name != [] && createdBy != []
      ensures State() == if ok then Created(createdBy, memberIDs) else old(State())
      ensures ok ==>
                && (forall u :: u in participants <==> u == createdBy || (u != [] && u in memberIDs))
                && count == |participants| && members.Keys == participants
                && (forall u :: u in members ==> members[u] == Member(if u == createdBy then "OWNER" else "MEMBER", true))
    {
      if name == [] || createdBy == [] {
        return false;
      }
      var unique := {createdBy};
      for k := 0 to |memberIDs|
        invariant unique == Everyone(createdBy, memberIDs[..k])
      {
        EveryoneSnoc(createdBy, memberIDs[..k], memberIDs[k]);
        assert memberIDs[..k + 1] == memberIDs[..k] + [memberIDs[k]];
        if memberIDs[k] != [] {
          unique := unique + {memberIDs[k]};
        }
      }
      assert memberIDs[..|memberIDs|] == memberIDs;
      participants, count, members := unique, |unique|, map[];
      var todo := unique;
      while todo != {}
        invariant todo <= unique
        invariant participants == unique && count == |unique|
        invariant members == Enrolled(createdBy, unique - todo)
      {
        var m :| m in todo;
        EnrolledMore(createdBy, unique - todo, m);
        assert unique - todo + {m} == unique - (todo - {m});
        members := members[m := Member(if m == createdBy then OWNER else MEMBER, true)];
        todo := todo - {m};
      }
      assert unique - {} == unique;
      assert members == Enrolled(createdBy, unique);
      ok := true;
    }

    method Update(w: Write)
      modifies this
      ensures State() == Written(old(State()), w)
    {
      match w
      case Activate(u, role) =>
        members := members[u := Member(role, true)];
      case Deactivate(u) =>
        if u in members {
          members := members[u := members[u].(active := false)];
        }
      case Join(u) =>
        participants, count := participants + {u}, count + 1;
      case Part(u) =>
        participants, count := participants - {u}, count - 1;
      case SetRoleIfActive(u, role) =>
        if u in members && members[u].active {
          members := members[u := members[u].(role := role)];
        }
      case SetRole(u, role) =>
        if u in members {
          members := members[u := members[u].(role := role)];
        }
    }

    method AddGroupMember(user: Str, role: string)
      modifies this
      ensures State() == Done(old(State()), Add(user, role))
      ensures members == old(members)[user := Member(if role == "" then "MEMBER" else role, true)]
      ensures participants == old(participants) + {user} && count == old(count) + 1
    {
      WritesUnfold(State(), Add(user, role));
      Update(Activate(user, if role == "" then MEMBER else role));
      Update(Join(user));
    }

    method RemoveGroupMember(user: Str)
      modifies this
      ensures State() == Done(old(State()), Remove(user))
      ensures participants == old(participants) - {user} && count == old(count) - 1
      ensures members == if user in old(members) then old(members)[user := Member(old(members)[user].role, false)] else old(members)
    {
      WritesUnfold(State(), Remove(user));
      Update(Deactivate(user));
      Update(Part(user));
    }

    method LeaveGroup(user: Str)
      modifies this
      ensures State() == Done(old(State()), Leave(user))
      ensures participants == old(participants) - {user} && count == old(count) - 1
      ensures members == if user in old(members) then old(members)[user := Member(old(members)[user].role, false)] else old(members)
    {
      WritesUnfold(State(), Leave(user));
      WritesUnfold(State(), Remove(user));
      RemoveGroupMember(user);
    }

    method PromoteAdmin(user: Str) returns (ok: bool)
      modifies this
      ensures ok <==> user in old(Active(State()))
      ensures State() == Done(old(State()), Promote(user))
      ensures ok <==> user in old(members) && old(members)[user].active
      ensures members == if ok then old(members)[user := Member("ADMIN", true)] else old(members)
      ensures participants == old(participants) && count == old(count)
    {
      WritesUnfold(State(), Promote(user));
      ok := user in members && members[user].active;
      Update(SetRoleIfActive(user, ADMIN));
    }

    method TransferOwnership(current: Str, successor: Str)
      modifies this
      ensures State() == Done(old(State()), Transfer(current, successor))
      ensures members.Keys == old(members).Keys && participants == old(participants) && count == old(count)
      ensures forall u :: u in members ==>
                && members[u].active == old(members)[u].active
                && members[u].role == if u == current && current != [] then "ADMIN"
                                      else if u == successor && old(members)[u].active then "OWNER" else old(members)[u].role
    {
      WritesUnfold(State(), Transfer(current, successor));
      Update(SetRoleIfActive(successor, OWNER));
      if current != [] {
        Update(SetRole(current, ADMIN));
      }
    }
  }

  // ------------------------------------------------------------------ the counter

  /** How far one write moves the counter away from the participants. */
  function Drift(g: Group, w: Write): int {
    match w
    case Join(u) => if u in g.participants then 1 else 0
    case Part(u) => if u in g.participants then 0 else -1
    case _ => 0
  }

  function TotalDrift(g: Group, ws: seq<Write>): int {
    if ws == [] then 0
    else TotalDrift(g, ws[..|ws| - 1]) + Drift(WrittenAll(g, ws[..|ws| - 1]), ws[|ws| - 1])
  }

  function Excess(g: Group): int {
    g.count - |g.participants|
  }

  /**
   Every interleaving of the writes of any operations: the counter is ahead of the participants by the
   joins of users already there, less the partings of users who were not.
   */
  lemma {:induction false} DriftLaw(g: Group, ws: seq<Write>)
    ensures Excess(WrittenAll(g, ws)) == Excess(g) + TotalDrift(g, ws)
  {
    if ws != [] {
      DriftLaw(g, ws[..|ws| - 1]);
      DriftStep(WrittenAll(g, ws[..|ws| - 1]), ws[|ws| - 1]);
    }
  }

  lemma DriftStep(g: Group, w: Write)
    ensures Excess(Written(g, w)) == Excess(g) + Drift(g, w)
  {
    match w
    case Join(u) =>
      if u in g.participants {
        assert g.participants + {u} == g.participants;
      }
    case Part(u) =>
      if u !in g.participants {
        assert g.participants - {u} == g.participants;
      }
    case _ =>
  }

  // ------------------------------------------------------------------ the two collections

  predicate Agree(g: Group) {
    g.participants == Active(g)
  }

  lemma CreatedAgrees(createdBy: Str, memberIDs: seq<Str>)
    ensures var g := Created(createdBy, memberIDs); Agree(g) && Excess(g) == 0 && Owners(g) == {createdBy}
  {
  }

  /** Operations run one after another keep the participants equal to the ACTIVE members. */
  lemma {:induction false} SerialRunAgrees(createdBy: Str, memberIDs: seq<Str>, ops: seq<Op>)
    ensures Agree(DoneAll(Created(createdBy, memberIDs), ops))
  {
    if ops == [] {
      CreatedAgrees(createdBy, memberIDs);
    } else {
      SerialRunAgrees(createdBy, memberIDs, ops[..|ops| - 1]);
      DoneActive(DoneAll(Created(createdBy, memberIDs), ops[..|ops| - 1]), ops[|ops| - 1]);
    }
  }

  function ActiveAfter(active: set<Str>, w: Write): set<Str> {
    match w
    case Activate(u, _) => active + {u}
    case Deactivate(u) => active - {u}
    case _ => active
  }

  lemma WrittenActive(g: Group, w: Write)
    ensures Active(Written(g, w)) == ActiveAfter(Active(g), w)
  {
  }

  lemma DoneActive(g: Group, op: Op)
    requires Agree(g)
    ensures Agree(Done(g, op))
  {
    WritesUnfold(g, op);
    var ws := Writes(op);
    var h := Written(g, ws[0]);
    WrittenActive(g, ws[0]);
    if |ws| == 2 {
      WrittenActive(h, ws[1]);
    }
  }

  /** The count is exact after a serial run iff its re-adds and its removals of strangers balance. */
  function OpDrift(g: Group, op: Op): int {
    match op
    case Add(u, _) => if IsActive(g, u) then 1 else 0
    case Remove(u) => if IsActive(g, u) then 0 else -1
    case Leave(u) => if IsActive(g, u) then 0 else -1
    case _ => 0
  }

  function TotalOpDrift(g: Group, ops: seq<Op>): int {
    if ops == [] then 0
    else TotalOpDrift(g, ops[..|ops| - 1]) + OpDrift(DoneAll(g, ops[..|ops| - 1]), ops[|ops| - 1])
  }

  lemma {:induction false} CountExactIff(createdBy: Str, memberIDs: seq<Str>, ops: seq<Op>)
    ensures var g := Created(createdBy, memberIDs);
            var h := DoneAll(g, ops);
            && h.count - |Active(h)| == TotalOpDrift(g, ops)
            && (h.count == |Active(h)| <==> TotalOpDrift(g, ops) == 0)
  {
    var g := Created(createdBy, memberIDs);
    if ops == [] {
      CreatedAgrees(createdBy, memberIDs);
    } else {
      var front, op := ops[..|ops| - 1], ops[|ops| - 1];
      CountExactIff(createdBy, memberIDs, front);
      SerialRunAgrees(createdBy, memberIDs, front);
      SerialRunAgrees(createdBy, memberIDs, ops);
      OpDriftStep(DoneAll(g, front), op);
    }
  }

  lemma OpDriftStep(g: Group, op: Op)
    requires Agree(g)
    ensures Excess(Done(g, op)) == Excess(g) + OpDrift(g, op)
  {
    WritesUnfold(g, op);
    var ws := Writes(op);
    DriftStep(g, ws[0]);
    if |ws| == 2 {
      DriftStep(Written(g, ws[0]), ws[1]);
    }
    assert op.Add? || op.Remove? || op.Leave? ==> (op.user in g.participants <==> IsActive(g, op.user));
  }

  // ---- concurrent operations

  /** Whether the last write of a user's membership (or of the participant list) put the user in. */
  function LastMembership(ws: seq<Write>, u: Str, initially: bool): bool {
    if ws == [] then initially
    else
      var w := ws[|ws| - 1];
      if w.Activate? && w.user == u then true
      else if w.Deactivate? && w.user == u then false
      else LastMembership(ws[..|ws| - 1], u, initially)
  }

  function LastParticipation(ws: seq<Write>, u: Str, initially: bool): bool {
    if ws == [] then initially
    else
      var w := ws[|ws| - 1];
      if w.Join? && w.user == u then true
      else if w.Part? && w.user == u then false
      else LastParticipation(ws[..|ws| - 1], u, initially)
  }

  lemma {:induction false} WritesDecide(g: Group, ws: seq<Write>, u: Str)
    ensures IsActive(WrittenAll(g, ws), u) <==> LastMembership(ws, u, IsActive(g, u))
    ensures u in WrittenAll(g, ws).participants <==> LastParticipation(ws, u, u in g.participants)
  {
    if ws != [] {
      WritesDecide(g, ws[..|ws| - 1], u);
    }
  }

  /**
   Any interleaving of the writes of concurrent operations: the collections agree in the end iff, for
   every user, the last writes on the two sides went the same way.
   */
  lemma InterleavingAgreesIff(g: Group, ws: seq<Write>)
    requires Agree(g)
    ensures Agree(WrittenAll(g, ws)) <==>
            forall u :: LastMembership(ws, u, u in g.participants) == LastParticipation(ws, u, u in g.participants)
  {
    var h := WrittenAll(g, ws);
    forall u ensures (u in h.participants <==> LastParticipation(ws, u, u in g.participants))
                     && (u in Active(h) <==> LastMembership(ws, u, u in g.participants)) {
      WritesDecide(g, ws, u);
      assert u in g.participants <==> u in Active(g);
    }
    if forall u :: LastMembership(ws, u, u in g.participants) == LastParticipation(ws, u, u in g.participants) {
      assert forall u :: u in h.participants <==> u in Active(h);
    }
  }

  /** An add and a removal of one user whose second writes overtake: inactive, yet a participant. */
  lemma OvertakingWritesDisagree(g: Group, u: Str, role: string)
    requires Agree(g)
    ensures var h := WrittenAll(g, [Activate(u, role), Deactivate(u), Part(u), Join(u)]);
            u in h.participants && u !in Active(h)
  {
    var ws := [Activate(u, role), Deactivate(u), Part(u), Join(u)];
    WritesDecide(g, ws, u);
    assert ws[..3] == [Activate(u, role), Deactivate(u), Part(u)];
    assert ws[..3][..2] == [Activate(u, role), Deactivate(u)];
    assert !LastMembership(ws[..3][..2], u, u in g.participants);
    assert !LastMembership(ws[..3], u, u in g.participants);
  }

  // ------------------------------------------------------------------ ownership

  /** What each operation does to the set of ACTIVE owners. */
  function OwnersAfter(owners: set<Str>, op: Op, successorActive: bool): set<Str> {
    match op
    case Add(u, role) => if role == OWNER then owners + {u} else owners - {u}
    case Remove(u) => owners - {u}
    case Leave(u) => owners - {u}
    case Promote(u) => owners - {u}
    case Transfer(current, successor) =>
      (if successorActive then owners + {successor} else owners) - if current == [] then {} else {current}
  }

  predicate SuccessorActive(g: Group, op: Op) {
    op.Transfer? && IsActive(g, op.successor)
  }

  lemma OwnersFollow(g: Group, op: Op)
    ensures Owners(Done(g, op)) == OwnersAfter(Owners(g), op, SuccessorActive(g, op))
  {
    WritesUnfold(g, op);
  }

  predicate SoleOwner(g: Group, o: Str) {
    Owners(g) == {o}
  }

  /** Checked before the call: what keeps a group with one owner at one owner. */
  predicate Guarded(g: Group, o: Str, op: Op) {
    match op
    case Add(u, role) => u == o <==> role == OWNER
    case Remove(u) => u != o
    case Leave(u) => u != o
    case Promote(u) => u != o
    case Transfer(current, successor) =>
      if IsActive(g, successor) && successor != o then current != [] && (current == o || current == successor)
      else current == [] || current != o
  }

  function OwnerAfter(g: Group, o: Str, op: Op): Str {
    if op.Transfer? && IsActive(g, op.successor) && op.current == o then op.successor else o
  }

  lemma OneOwnerStepIff(g: Group, o: Str, op: Op)
    requires SoleOwner(g, o)
    ensures |Owners(Done(g, op))| == 1 <==> Guarded(g, o, op)
    ensures Guarded(g, o, op) ==> SoleOwner(Done(g, op), OwnerAfter(g, o, op))
  {
    OwnersFollow(g, op);
    assert Owners(g) == {o};
    if Guarded(g, o, op) {
      StillOneOwner(g, o, op);
    } else {
      NotOneOwner(g, o, op);
    }
  }

  lemma StillOneOwner(g: Group, o: Str, op: Op)
    requires Guarded(g, o, op)
    ensures OwnersAfter({o}, op, SuccessorActive(g, op)) == {OwnerAfter(g, o, op)}
  {
  }

  lemma NotOneOwner(g: Group, o: Str, op: Op)
    requires !Guarded(g, o, op)
    ensures |OwnersAfter({o}, op, SuccessorActive(g, op))| != 1
  {
    var after := OwnersAfter({o}, op, SuccessorActive(g, op));
    if op.Add? && op.user != o {
      assert after == {o, op.user};
    } else if op.Transfer? && SuccessorActive(g, op) && op.successor != o {
      assert after == {o, op.successor};
    } else {
      assert after == {};
    }
  }

  /** Every operation of a run is guarded, the owner being whoever the run so far made owner. */
  predicate AllGuarded(g: Group, o: Str, ops: seq<Op>)
    decreases |ops|
  {
    ops == [] || (Guarded(g, o, ops[0]) && AllGuarded(Done(g, ops[0]), OwnerAfter(g, o, ops[0]), ops[1..]))
  }

  predicate OneOwnerThroughout(g: Group, ops: seq<Op>)
    decreases |ops|
  {
    |Owners(g)| == 1 && (ops == [] || OneOwnerThroughout(Done(g, ops[0]), ops[1..]))
  }

  lemma {:induction false} OneOwnerRunIff(g: Group, o: Str, ops: seq<Op>)
    requires SoleOwner(g, o)
    ensures OneOwnerThroughout(g, ops) <==> AllGuarded(g, o, ops)
    decreases |ops|
  {
    if ops != [] {
      OneOwnerStepIff(g, o, ops[0]);
      if Guarded(g, o, ops[0]) {
        OneOwnerRunIff(Done(g, ops[0]), OwnerAfter(g, o, ops[0]), ops[1..]);
      }
    }
  }

  /** From creation on there is exactly one ACTIVE owner at all times iff every operation is guarded. */
  lemma OwnershipIff(createdBy: Str, memberIDs: seq<Str>, ops: seq<Op>)
    ensures var g := Created(createdBy, memberIDs);
            OneOwnerThroughout(g, ops) <==> AllGuarded(g, createdBy, ops)
  {
    CreatedAgrees(createdBy, memberIDs);
    OneOwnerRunIff(Created(createdBy, memberIDs), createdBy, ops);
  }

  /** The owner hands over to somebody who is not an ACTIVE member: the group has no owner left. */
  lemma TransferToInactiveOrphans(g: Group, o: Str, successor: Str)
    requires SoleOwner(g, o) && o != [] && !IsActive(g, successor)
    ensures Owners(Done(g, Transfer(o, successor))) == {}
  {
    OwnersFollow(g, Transfer(o, successor));
  }

  /** A transfer in somebody else's name gives the group two owners. */
  lemma TransferByStrangerDoubles(g: Group, o: Str, stranger: Str, successor: Str)
    requires SoleOwner(g, o) && IsActive(g, successor) && successor != o && stranger != o && stranger != successor
    ensures Owners(Done(g, Transfer(stranger, successor))) == {o, successor}
  {
    OwnersFollow(g, Transfer(stranger, successor));
  }

  // ---- ownership under concurrent operations

  /** A user's member document after writes to it, as far as it says whether they are an ACTIVE owner. */
  datatype Standing = Absent | Present(role: string, active: bool)

  function StandingIn(g: Group, u: Str): Standing {
    if u in g.members then Present(g.members[u].role, g.members[u].active) else Absent
  }

  function Stands(x: Standing, w: Write, u: Str): Standing {
    if w.user != u then x
    else
      match w
      case Activate(_, role) => Present(role, true)
      case Deactivate(_) => if x.Present? then x.(active := false) else x
      case SetRoleIfActive(_, role) => if x.Present? && x.active then x.(role := role) else x
      case SetRole(_, role) => if x.Present? then x.(role := role) else x
      case Join(_) => x
      case Part(_) => x
  }

  function StandsAfter(x: Standing, ws: seq<Write>, u: Str): Standing {
    if ws == [] then x else Stands(StandsAfter(x, ws[..|ws| - 1], u), ws[|ws| - 1], u)
  }

  /** In every interleaving a user's standing is what the writes to that user make of it, in their order. */
  lemma {:induction false} StandingIsLocal(g: Group, ws: seq<Write>, u: Str)
    ensures StandingIn(WrittenAll(g, ws), u) == StandsAfter(StandingIn(g, u), ws, u)
  {
    if ws != [] {
      StandingIsLocal(g, ws[..|ws| - 1], u);
    }
  }

  /** So the owners after any interleaving of any operations are the users whose own writes end so. */
  lemma OwnersInterleaved(g: Group, ws: seq<Write>)
    ensures forall u :: u in Owners(WrittenAll(g, ws)) <==> StandsAfter(StandingIn(g, u), ws, u) == Present(OWNER, true)
  {
    forall u ensures u in Owners(WrittenAll(g, ws)) <==> StandsAfter(StandingIn(g, u), ws, u) == Present(OWNER, true) {
      StandingIsLocal(g, ws, u);
    }
  }

  /** Transfers in the name of one owner to others, all in flight at once. */
  predicate TransfersFrom(o: Str, ops: seq<Op>) {
    forall k :: 0 <= k < |ops| ==> ops[k].Transfer? && ops[k].current == o && ops[k].successor != o
  }

  /** ws is made of the writes of the operations, in any order. */
  ghost predicate MadeOf(ws: seq<Write>, ops: seq<Op>) {
    && (forall w :: w in ws ==> exists k :: 0 <= k < |ops| && w in Writes(ops[k]))
    && (forall k, w :: 0 <= k < |ops| && w in Writes(ops[k]) ==> w in ws)
  }

  predicate Named(ops: seq<Op>, u: Str) {
    exists k :: 0 <= k < |ops| && ops[k].Transfer? && ops[k].successor == u
  }

  lemma {:induction false} PromotedOnly(x: Standing, ws: seq<Write>, u: Str)
    requires forall w :: w in ws && w.user == u ==> w == SetRoleIfActive(u, OWNER)
    ensures StandsAfter(x, ws, u) ==
            if x.Present? && x.active && SetRoleIfActive(u, OWNER) in ws then Present(OWNER, true) else x
  {
    if ws != [] {
      var front := ws[..|ws| - 1];
      assert ws == front + [ws[|ws| - 1]];
      PromotedOnly(x, front, u);
    }
  }

  lemma {:induction false} DemotedOnly(role: string, ws: seq<Write>, u: Str)
    requires forall w :: w in ws && w.user == u ==> w == SetRole(u, ADMIN)
    ensures StandsAfter(Present(role, true), ws, u) == Present(if SetRole(u, ADMIN) in ws then ADMIN else role, true)
  {
    if ws != [] {
      var front := ws[..|ws| - 1];
      assert ws == front + [ws[|ws| - 1]];
      DemotedOnly(role, front, u);
    }
  }

  lemma TransferWrites(o: Str, n: Str)
    requires o != []
    ensures forall w :: w in Writes(Transfer(o, n)) <==> w == SetRoleIfActive(n, OWNER) || w == SetRole(o, ADMIN)
  {
    assert Writes(Transfer(o, n)) == [SetRoleIfActive(n, OWNER), SetRole(o, ADMIN)];
  }

  /** What such a heap of writes holds. */
  lemma TransfersWrite(o: Str, ops: seq<Op>, ws: seq<Write>)
    requires o != [] && ops != [] && TransfersFrom(o, ops) && MadeOf(ws, ops)
    ensures SetRole(o, ADMIN) in ws
    ensures forall u :: SetRoleIfActive(u, OWNER) in ws <==> Named(ops, u)
    ensures forall w :: w in ws ==> w == SetRole(o, ADMIN) || (w.user != o && w == SetRoleIfActive(w.user, OWNER))
  {
    forall k | 0 <= k < |ops| ensures forall w :: w in Writes(ops[k]) <==> w == SetRoleIfActive(ops[k].successor, OWNER) || w == SetRole(o, ADMIN) {
      TransferWrites(o, ops[k].successor);
    }
    assert SetRole(o, ADMIN) in Writes(ops[0]);
    forall u | Named(ops, u) ensures SetRoleIfActive(u, OWNER) in ws {
      var k :| 0 <= k < |ops| && ops[k].Transfer? && ops[k].successor == u;
      assert SetRoleIfActive(u, OWNER) in Writes(ops[k]);
    }
  }

  /**
   Transfers by one owner that race: however many, and however their writes interleave, the group ends up
   with all the ACTIVE members they name as owners. So two racing transfers leave two owners.
   */
  lemma RacingTransfers(g: Group, o: Str, ops: seq<Op>, ws: seq<Write>)
    requires SoleOwner(g, o) && o != [] && ops != [] && TransfersFrom(o, ops) && MadeOf(ws, ops)
    ensures Owners(WrittenAll(g, ws)) == set u | u in Active(g) && Named(ops, u)
  {
    OwnersInterleaved(g, ws);
    TransfersWrite(o, ops, ws);
    forall u ensures u in Owners(WrittenAll(g, ws)) <==> u in Active(g) && Named(ops, u) {
      assert u in Owners(g) <==> u == o;
      if u == o {
        assert o in Owners(g);
        DemotedOnly(OWNER, ws, o);
      } else {
        PromotedOnly(StandingIn(g, u), ws, u);
      }
    }
  }
}
