/** Exactly which histories make a user a member of a group, or a pending requester. */
module Membership {
  import opened Streams
  import opened Requests
  import opened TrackerSpec
  import opened TrackerInvariants
  import opened Runs
  import opened Histories

  predicate IsUser(s: State, id: string, u: User) {
    id in s.groups && u in s.groups[id].users
  }

  predicate IsPending(s: State, id: string, u: User) {
    id in s.groups && u in s.groups[id].requests
  }

  // ---- The three requests that move a user ----

  /** A successful join by a session of `u`. */
  predicate Joins(s: State, c: Call, id: string, u: User) {
    && c.request == JoinGroup(id)
    && c.origin in s.sessions && s.sessions[c.origin] == u
    && id in s.groups && !HasMember(s.groups[id], u)
  }

  /** A successful accept, from a session of the owner, that names `u` and finds its request. */
  ghost predicate Admits(s: State, c: Call, pick: Pick, id: string, u: User) {
    && c.request == AcceptRequest(id, u.name)
    && c.origin in s.sessions && id in s.groups && s.sessions[c.origin] == s.groups[id].owner
    && Requesters(s.groups[id], u.name) != {}
    && Chosen(Requesters(s.groups[id], u.name), pick.requester) == u
  }

  /** A successful leave by a session of `u`. */
  predicate Leaves(s: State, c: Call, id: string, u: User) {
    && c.request == LeaveGroup(id)
    && c.origin in s.sessions && s.sessions[c.origin] == u
    && IsUser(s, id, u)
  }

  lemma MovesSucceed(s: State, c: Call, pick: Pick, id: string, u: User)
    requires Joins(s, c, id, u) || Admits(s, c, pick, id, u) || Leaves(s, c, id, u)
    ensures Step(s, c, pick).1.Success()
  {
    match c.request
    case AcceptRequest(_, _) =>
    case _ =>
  }

  predicate Moves(c: Call) {
    c.request.JoinGroup? || c.request.LeaveGroup? || c.request.AcceptRequest?
  }

  lemma UploadMovesNobody(s: State, origin: Size, id': string, args: UploadArgs, id: string, u: User)
    ensures IsUser(UploadStep(s, origin, id', args).0, id, u) <==> IsUser(s, id, u)
    ensures IsPending(UploadStep(s, origin, id', args).0, id, u) <==> IsPending(s, id, u)
  {
  }

  lemma OthersMoveNobody(s: State, c: Call, pick: Pick, id: string, u: User)
    requires !Moves(c)
    ensures IsUser(Step(s, c, pick).0, id, u) <==> IsUser(s, id, u)
    ensures IsPending(Step(s, c, pick).0, id, u) <==> IsPending(s, id, u)
  {
    hide UploadStep, FileGuard;
    if c.request.Upload? {
      UploadMovesNobody(s, c.origin, c.request.groupId, WithSize(c.request.args, pick.unset), id, u);
    }
  }

  lemma AcceptMoves(s: State, c: Call, pick: Pick, id: string, u: User)
    requires c.request.AcceptRequest?
    ensures IsUser(Step(s, c, pick).0, id, u) <==> Admits(s, c, pick, id, u) || IsUser(s, id, u)
    ensures IsPending(Step(s, c, pick).0, id, u) <==> IsPending(s, id, u) && !Admits(s, c, pick, id, u)
  {
    var id', name := c.request.groupId, c.request.username;
    if c.origin in s.sessions && id' in s.groups && s.sessions[c.origin] == s.groups[id'].owner {
      var candidates := Requesters(s.groups[id'], name);
      if candidates != {} {
        assert Chosen(candidates, pick.requester) in candidates;
      }
    }
  }

  /** One request turns exactly the admitted user into a member, exactly the joining user into a requester,
      and takes out exactly the leaving user. */
  lemma StepMoves(s: State, c: Call, pick: Pick, id: string, u: User)
    ensures IsUser(Step(s, c, pick).0, id, u) <==>
      Admits(s, c, pick, id, u) || (IsUser(s, id, u) && !Leaves(s, c, id, u))
    ensures IsPending(Step(s, c, pick).0, id, u) <==>
      Joins(s, c, id, u) || (IsPending(s, id, u) && !Admits(s, c, pick, id, u))
  {
    if c.request.AcceptRequest? {
      hide Step, IsUser, IsPending;
      AcceptMoves(s, c, pick, id, u);
    } else if !Moves(c) {
      hide Step, IsUser, IsPending;
      OthersMoveNobody(s, c, pick, id, u);
    }
  }

  // ---- Histories ----

  ghost function JoinOf(id: string, u: User): (State, Event) -> bool {
    (s, e) => Asks(s, e, (s', c) => Joins(s', c, id, u))
  }

  ghost function AdmissionOf(id: string, u: User): (State, Event) -> bool {
    (s, e: Event) => Asks(s, e, (s', c) => Admits(s', c, e.pick, id, u))
  }

  ghost function LeaveOf(id: string, u: User): (State, Event) -> bool {
    (s, e) => Asks(s, e, (s', c) => Leaves(s', c, id, u))
  }

  lemma NobodyMoved(id: string, u: User)
    ensures !IsUser(EMPTY, id, u) && !IsPending(EMPTY, id, u)
  {
  }

  /** A user other than the owner is a member exactly when it was admitted and has not left since; a user is
      pending exactly when it asked to join and has not been admitted since. */
  lemma {:induction false} MembershipIsHistory(run: seq<Event>, id: string, u: User)
    ensures IsUser(After(run), id, u) <==> Stands(Flags(run, AdmissionOf(id, u)), Flags(run, LeaveOf(id, u)))
    ensures IsPending(After(run), id, u) <==> Stands(Flags(run, JoinOf(id, u)), Flags(run, AdmissionOf(id, u)))
  {
    hide Step, DecodeLine, Joins, Admits, Leaves, IsUser, IsPending, After, Stands, Sound;
    var member, pending := s => IsUser(s, id, u), s => IsPending(s, id, u);
    forall s, e
      ensures Switches(member, AdmissionOf(id, u), LeaveOf(id, u), s, e)
      ensures Switches(pending, JoinOf(id, u), AdmissionOf(id, u), s, e)
    {
      match DecodeLine(e.line)
      case None =>
      case Some(c) => StepMoves(s, c, e.pick, id, u);
    }
    NobodyMoved(id, u);
    HoldsIff(run, member, AdmissionOf(id, u), LeaveOf(id, u));
    HoldsIff(run, pending, JoinOf(id, u), AdmissionOf(id, u));
  }

  /** An admitted user was pending, so it had asked first: the full provenance of a membership. */
  lemma {:induction false} MembershipProvenance(run: seq<Event>, id: string, u: User) returns (i: nat, j: nat)
    requires IsUser(After(run), id, u)
    ensures var (joins, admissions, leaves) :=
        (Flags(run, JoinOf(id, u)), Flags(run, AdmissionOf(id, u)), Flags(run, LeaveOf(id, u)));
      && i < j < |run| && joins[i] && admissions[j]
      && (forall k :: j < k < |run| ==> !leaves[k])
      && (forall k :: i < k < j ==> !admissions[k])
  {
    hide JoinOf, AdmissionOf, LeaveOf, After, IsUser, IsPending, Flags;
    MembershipIsHistory(run, id, u);
    var admissions, leaves := Flags(run, AdmissionOf(id, u)), Flags(run, LeaveOf(id, u));
    j :| 0 <= j < |run| && admissions[j] && forall k :: j < k < |run| ==> !leaves[k];
    AdmittedWerePending(run, j, id, u);
    MembershipIsHistory(run[..j], id, u);
    FlagsPrefix(run, j, JoinOf(id, u));
    FlagsPrefix(run, j, AdmissionOf(id, u));
    var joins := Flags(run, JoinOf(id, u))[..j];
    i :| 0 <= i < j && joins[i] && forall k :: i < k < j ==> !admissions[..j][k];
  }

  lemma AdmittedWerePending(run: seq<Event>, j: nat, id: string, u: User)
    requires j < |run| && Flags(run, AdmissionOf(id, u))[j]
    ensures IsPending(After(run[..j]), id, u)
  {
    hide DecodeLine, After;
    var s := After(run[..j]);
    assert AdmissionOf(id, u)(s, run[j]);
    var c := DecodeLine(run[j].line).value;
    assert Admits(s, c, run[j].pick, id, u);
    assert u in Requesters(s.groups[id], u.name);
  }
}
