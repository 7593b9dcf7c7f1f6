/** What every request keeps, whoever sends it and in whatever order requests arrive. */
module TrackerInvariants {
  import opened Streams
  import opened Requests
  import opened TrackerSpec

  /** Pending requesters, members and the owner are kept apart, and files are filed under their own hash. */
  predicate SoundGroup(g: GroupState) {
    && g.owner !in g.users && g.owner !in g.requests && g.users !! g.requests
    && forall h :: h in g.files ==> g.files[h].info.hash == h
  }

  predicate Sound(s: State) {
    && (forall name :: name in s.users ==> s.users[name].name == name)
    && (forall id :: id in s.groups ==> SoundGroup(s.groups[id]))
  }

  /** What one request may do to a group: its owner stays, its files stay as described, seeders only come in. */
  predicate GroupGrows(g: GroupState, g': GroupState) {
    && g'.owner == g.owner
    && forall h :: h in g.files ==>
        h in g'.files && g'.files[h].info == g.files[h].info && g.files[h].seeders <= g'.files[h].seeders
  }

  predicate Grows(s: State, s': State) {
    && s.created <= s'.created
    && forall id :: id in s.groups ==> id in s'.groups && GroupGrows(s.groups[id], s'.groups[id])
  }

  lemma GrowsReflexive(s: State)
    ensures Grows(s, s)
  {
  }

  lemma GrowsTransitive(s: State, t: State, u: State)
    requires Grows(s, t) && Grows(t, u)
    ensures Grows(s, u)
  {
    forall id | id in s.groups ensures id in u.groups && GroupGrows(s.groups[id], u.groups[id]) {
      assert GroupGrows(s.groups[id], t.groups[id]) && GroupGrows(t.groups[id], u.groups[id]);
      forall h | h in s.groups[id].files
        ensures s.groups[id].files[h].seeders <= u.groups[id].files[h].seeders
      {
        assert s.groups[id].files[h].seeders <= t.groups[id].files[h].seeders;
      }
    }
  }

  lemma WithGroupKeeps(s: State, id: string, g: GroupState)
    requires Sound(s) && SoundGroup(g)
    requires id in s.groups ==> GroupGrows(s.groups[id], g)
    ensures Sound(WithGroup(s, id, g)) && Grows(s, WithGroup(s, id, g))
  {
  }

  lemma UsersKeep(s: State, c: Call)
    requires Sound(s)
    ensures forall name, password :: var s' := CreateUserStep(s, name, password).0; Sound(s') && Grows(s, s')
    ensures forall name :: var s' := DeleteUserStep(s, name).0; Sound(s') && Grows(s, s')
    ensures forall name, password :: var s' := LoginStep(s, c.origin, name, password).0; Sound(s') && Grows(s, s')
    ensures Sound(LogoutStep(s, c.origin).0) && Grows(s, LogoutStep(s, c.origin).0)
  {
  }

  lemma UserRequestsKeepGroups(s: State, c: Call)
    ensures forall name, password :: CreateUserStep(s, name, password).0.groups == s.groups
    ensures forall name :: DeleteUserStep(s, name).0.groups == s.groups
    ensures forall name, password :: LoginStep(s, c.origin, name, password).0.groups == s.groups
    ensures LogoutStep(s, c.origin).0.groups == s.groups
  {
  }

  lemma GroupRequestsKeep(s: State, c: Call)
    requires Sound(s)
    ensures forall id :: var s' := CreateGroupStep(s, c.origin, id).0; Sound(s') && Grows(s, s')
    ensures forall id :: var s' := JoinStep(s, c.origin, id).0; Sound(s') && Grows(s, s')
    ensures forall id :: var s' := LeaveStep(s, c.origin, id).0; Sound(s') && Grows(s, s')
  {
    forall id ensures var s' := CreateGroupStep(s, c.origin, id).0; Sound(s') && Grows(s, s') {
      if c.origin in s.sessions && id !in s.groups {
        WithGroupKeeps(s, id, GroupState(s.sessions[c.origin], {}, {}, map[]));
      }
    }
    forall id ensures var s' := JoinStep(s, c.origin, id).0; Sound(s') && Grows(s, s') {
      if c.origin in s.sessions && id in s.groups && !HasMember(s.groups[id], s.sessions[c.origin]) {
        var g := s.groups[id];
        WithGroupKeeps(s, id, g.(requests := g.requests + {s.sessions[c.origin]}));
      }
    }
    forall id ensures var s' := LeaveStep(s, c.origin, id).0; Sound(s') && Grows(s, s') {
      if c.origin in s.sessions && id in s.groups {
        var g := s.groups[id];
        WithGroupKeeps(s, id, g.(users := g.users - {s.sessions[c.origin]}));
      }
    }
  }

  lemma AcceptKeeps(s: State, origin: Size, id: string, name: string, pick: User)
    requires Sound(s)
    ensures var s' := AcceptStep(s, origin, id, name, pick).0; Sound(s') && Grows(s, s')
  {
    if origin in s.sessions && id in s.groups && Requesters(s.groups[id], name) != {} {
      var u := Chosen(Requesters(s.groups[id], name), pick);
      assert u in Requesters(s.groups[id], name);
      WithGroupKeeps(s, id, Admit(s.groups[id], u));
    }
  }

  lemma UploadKeeps(s: State, origin: Size, id: string, args: UploadArgs)
    requires Sound(s)
    ensures var s' := UploadStep(s, origin, id, args).0; Sound(s') && Grows(s, s')
  {
    if args.Described? && FileGuard(s, origin, id).None? {
      var g, h := s.groups[id], args.info.hash;
      if h in g.files {
        WithGroupKeeps(s, id, AddSeeder(g, h, args.endpoint));
      } else {
        WithGroupKeeps(s, id, AddFile(g, args.info, args.endpoint));
      }
    }
  }

  /** Every request, successful or not, keeps the invariant and only grows the tracker. */
  lemma StepKeeps(s: State, c: Call, pick: Pick)
    requires Sound(s)
    ensures Sound(Step(s, c, pick).0) && Grows(s, Step(s, c, pick).0)
  {
    hide Sound, Grows, CreateUserStep, DeleteUserStep, LoginStep, LogoutStep, CreateGroupStep, JoinStep,
      LeaveStep, AcceptStep, UploadStep;
    GrowsReflexive(s);
    match c.request
    case AcceptRequest(id, name) => AcceptKeeps(s, c.origin, id, name, pick.requester);
    case Upload(id, args) => UploadKeeps(s, c.origin, id, WithSize(args, pick.unset));
    case _ =>
      UsersKeep(s, c);
      GroupRequestsKeep(s, c);
  }
}
