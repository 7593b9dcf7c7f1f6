/** Equality of trackers modulo seeders, and how single steps respect it. */
module Agreement {
  import opened Streams
  import opened Requests
  import opened TrackerSpec

  predicate SameFiles(f: map<string, StoredFile>, f': map<string, StoredFile>) {
    f.Keys == f'.Keys && forall h :: h in f ==> f[h].info == f'[h].info
  }

  predicate SameGroup(g: GroupState, g': GroupState) {
    g.owner == g'.owner && g.users == g'.users && g.requests == g'.requests && SameFiles(g.files, g'.files)
  }

  /** The two trackers differ at most in the seeders of their files. */
  predicate Agree(s: State, s': State) {
    && s.users == s'.users && s.created == s'.created && s.sessions == s'.sessions
    && s.groups.Keys == s'.groups.Keys
    && forall id :: id in s.groups ==> SameGroup(s.groups[id], s'.groups[id])
  }

  /** The request is an accept by the owner, so its effect depends on which requester is found first. */
  predicate OwnerAccepts(s: State, c: Call) {
    && c.request.AcceptRequest?
    && c.origin in s.sessions && c.request.groupId in s.groups
    && s.groups[c.request.groupId].owner == s.sessions[c.origin]
  }

  /** No accept has two requesters of one name to choose from. */
  predicate Unambiguous(s: State, c: Call) {
    OwnerAccepts(s, c) ==>
      var candidates := Requesters(s.groups[c.request.groupId], c.request.username);
      forall u, v | u in candidates && v in candidates :: u == v
  }

  /** The one failure that leaves a trace: the endpoint becomes a further seeder of a known file. */
  predicate AddsSeeder(s: State, c: Call) {
    && c.request.Upload? && c.request.args.Described?
    && FileGuard(s, c.origin, c.request.groupId).None?
    && c.request.args.info.hash in s.groups[c.request.groupId].files
  }

  /** The request stores a description whose size was never read, so a replay may store another one. */
  predicate StoresUnset(s: State, c: Call) {
    && c.request.Upload? && c.request.args.Described? && !c.request.args.sized
    && FileGuard(s, c.origin, c.request.groupId).None?
    && c.request.args.info.hash !in s.groups[c.request.groupId].files
  }

  /** The request leaves nothing open that any tracker could notice later. */
  predicate Determined(s: State, c: Call) {
    Unambiguous(s, c) && !StoresUnset(s, c)
  }

  /** A success that changes nothing: a download, or a join by a user who is pending already. */
  predicate Idle(s: State, c: Call) {
    || c.request.Download?
    || (&& c.request.JoinGroup? && c.origin in s.sessions && c.request.groupId in s.groups
        && s.sessions[c.origin] in s.groups[c.request.groupId].requests)
  }

  // ---- Failure is invisible ----

  lemma AgreeReflexive(s: State)
    ensures Agree(s, s)
  {
  }

  lemma UploadFailure(s: State, origin: Size, id: string, args: UploadArgs)
    requires !UploadStep(s, origin, id, args).1.Success()
    ensures Agree(s, UploadStep(s, origin, id, args).0)
  {
  }

  /** A step that does not succeed changes nothing, unless it adds one seeder to a known file. */
  lemma FailureIsInvisible(s: State, c: Call, pick: Pick)
    requires !Step(s, c, pick).1.Success()
    ensures Agree(s, Step(s, c, pick).0)
    ensures !AddsSeeder(s, c) ==> Step(s, c, pick).0 == s
    ensures AddsSeeder(s, c) ==>
      var (id, args) := (c.request.groupId, c.request.args);
      Step(s, c, pick).0 == WithGroup(s, id, AddSeeder(s.groups[id], args.info.hash, args.endpoint))
  {
    hide Agree, AddFile, AddSeeder, WithGroup, WithSize;
    AgreeReflexive(s);
    if c.request.Upload? {
      UploadFailure(s, c.origin, c.request.groupId, WithSize(c.request.args, pick.unset));
    }
  }

  // ---- Success respects agreement ----

  lemma WithGroupAgrees(s: State, t: State, id: string, g: GroupState, g': GroupState)
    requires Agree(s, t) && SameGroup(g, g')
    ensures Agree(WithGroup(s, id, g), WithGroup(t, id, g'))
  {
  }

  lemma CreateGroupAgrees(s: State, t: State, origin: Size, id: string)
    requires Agree(s, t)
    ensures CreateGroupStep(s, origin, id).1 == CreateGroupStep(t, origin, id).1
    ensures Agree(CreateGroupStep(s, origin, id).0, CreateGroupStep(t, origin, id).0)
  {
    if origin in s.sessions {
      var g := GroupState(s.sessions[origin], {}, {}, map[]);
      WithGroupAgrees(s, t, id, g, g);
    }
  }

  lemma JoinAgrees(s: State, t: State, origin: Size, id: string)
    requires Agree(s, t)
    ensures JoinStep(s, origin, id).1 == JoinStep(t, origin, id).1
    ensures Agree(JoinStep(s, origin, id).0, JoinStep(t, origin, id).0)
  {
    if origin in s.sessions && id in s.groups {
      var g, g', u := s.groups[id], t.groups[id], s.sessions[origin];
      assert SameGroup(g, g');
      WithGroupAgrees(s, t, id, g.(requests := g.requests + {u}), g'.(requests := g'.requests + {u}));
    }
  }

  lemma LeaveAgrees(s: State, t: State, origin: Size, id: string)
    requires Agree(s, t)
    ensures LeaveStep(s, origin, id).1 == LeaveStep(t, origin, id).1
    ensures Agree(LeaveStep(s, origin, id).0, LeaveStep(t, origin, id).0)
  {
    if origin in s.sessions && id in s.groups {
      var g, g', u := s.groups[id], t.groups[id], s.sessions[origin];
      assert SameGroup(g, g');
      WithGroupAgrees(s, t, id, g.(users := g.users - {u}), g'.(users := g'.users - {u}));
    }
  }

  lemma AcceptAgrees(s: State, t: State, origin: Size, id: string, name: string, p: User, q: User)
    requires Agree(s, t) && Unambiguous(s, Call(origin, AcceptRequest(id, name)))
    ensures AcceptStep(s, origin, id, name, p).1 == AcceptStep(t, origin, id, name, q).1
    ensures Agree(AcceptStep(s, origin, id, name, p).0, AcceptStep(t, origin, id, name, q).0)
  {
    if id in s.groups {
      assert SameGroup(s.groups[id], t.groups[id]);
    }
    if OwnerAccepts(s, Call(origin, AcceptRequest(id, name))) {
      var g, g' := s.groups[id], t.groups[id];
      assert Requesters(g, name) == Requesters(g', name);
      if Requesters(g, name) != {} {
        var u, u' := Chosen(Requesters(g, name), p), Chosen(Requesters(g', name), q);
        assert u in Requesters(g, name) && u' in Requesters(g, name);
        WithGroupAgrees(s, t, id, Admit(g, u), Admit(g', u'));
      }
    }
  }

  lemma FileGuardAgrees(s: State, t: State, origin: Size, id: string)
    requires Agree(s, t)
    ensures FileGuard(s, origin, id) == FileGuard(t, origin, id)
    ensures FileGuard(s, origin, id).None? ==> id in s.groups && SameGroup(s.groups[id], t.groups[id])
  {
    if id in s.groups {
      assert SameGroup(s.groups[id], t.groups[id]);
    }
  }

  lemma UploadAgrees(s: State, t: State, origin: Size, id: string, args: UploadArgs, p: Size, q: Size)
    requires Agree(s, t) && !StoresUnset(s, Call(origin, Upload(id, args)))
    ensures UploadStep(s, origin, id, WithSize(args, p)).1 == UploadStep(t, origin, id, WithSize(args, q)).1
    ensures Agree(UploadStep(s, origin, id, WithSize(args, p)).0, UploadStep(t, origin, id, WithSize(args, q)).0)
  {
    FileGuardAgrees(s, t, origin, id);
    if args.Described? && FileGuard(s, origin, id).None? {
      var g, g' := s.groups[id], t.groups[id];
      var h, e := args.info.hash, args.endpoint;
      if h in g.files {
        WithGroupAgrees(s, t, id, AddSeeder(g, h, e), AddSeeder(g', h, e));
      } else {
        WithGroupAgrees(s, t, id, AddFile(g, args.info, e), AddFile(g', args.info, e));
      }
    }
  }

  lemma DownloadAgrees(s: State, t: State, origin: Size, id: string, name: string, p: string, q: string)
    requires Agree(s, t)
    ensures DownloadStep(s, origin, id, name, p).1.Success() == DownloadStep(t, origin, id, name, q).1.Success()
    ensures DownloadStep(s, origin, id, name, p).0 == s && DownloadStep(t, origin, id, name, q).0 == t
  {
    FileGuardAgrees(s, t, origin, id);
    if FileGuard(s, origin, id).None? {
      assert Named(s.groups[id], name) == Named(t.groups[id], name);
    }
  }

  lemma UsersAgree(s: State, t: State, c: Call)
    requires Agree(s, t)
    ensures forall name, password ::
      && CreateUserStep(s, name, password).1 == CreateUserStep(t, name, password).1
      && Agree(CreateUserStep(s, name, password).0, CreateUserStep(t, name, password).0)
    ensures forall name ::
      && DeleteUserStep(s, name).1 == DeleteUserStep(t, name).1
      && Agree(DeleteUserStep(s, name).0, DeleteUserStep(t, name).0)
    ensures forall name, password ::
      && LoginStep(s, c.origin, name, password).1 == LoginStep(t, c.origin, name, password).1
      && Agree(LoginStep(s, c.origin, name, password).0, LoginStep(t, c.origin, name, password).0)
    ensures LogoutStep(s, c.origin).1 == LogoutStep(t, c.origin).1
    ensures Agree(LogoutStep(s, c.origin).0, LogoutStep(t, c.origin).0)
  {
  }

  /** Trackers that agree give every request the same success and keep agreeing, whatever the hash orders,
      as long as an accept has one requester to choose and a stored description has a size. Seeders never decide
      a success. */
  lemma StepRespectsAgreement(s: State, t: State, c: Call, p: Pick, q: Pick)
    requires Agree(s, t) && Determined(s, c)
    ensures Step(s, c, p).1.Success() == Step(t, c, q).1.Success()
    ensures Agree(Step(s, c, p).0, Step(t, c, q).0)
  {
    hide Agree, Unambiguous, CreateUserStep, DeleteUserStep, LoginStep, LogoutStep, CreateGroupStep, JoinStep,
      LeaveStep, AcceptStep, UploadStep, DownloadStep, FileGuard;
    match c.request
    case CreateGroup(id) => CreateGroupAgrees(s, t, c.origin, id);
    case JoinGroup(id) => JoinAgrees(s, t, c.origin, id);
    case LeaveGroup(id) => LeaveAgrees(s, t, c.origin, id);
    case AcceptRequest(id, name) =>
      assert c == Call(c.origin, AcceptRequest(id, name));
      AcceptAgrees(s, t, c.origin, id, name, p.requester, q.requester);
    case Upload(id, args) => UploadAgrees(s, t, c.origin, id, args, p.unset, q.unset);
    case Download(id, name) => DownloadAgrees(s, t, c.origin, id, name, p.file, q.file);
    case ListFiles(id) => FileGuardAgrees(s, t, c.origin, id);
    case _ => UsersAgree(s, t, c);
  }

  /** The guard is exact: for an accept with two candidates, whichever the one tracker admits, some hash order
      makes an agreeing tracker admit another, and they agree no more. */
  lemma AmbiguousAcceptDiverges(s: State, t: State, c: Call, p: Pick) returns (q: Pick)
    requires Agree(s, t) && !Unambiguous(s, c)
    requires s.groups[c.request.groupId].requests !! s.groups[c.request.groupId].users
    ensures Step(s, c, p).1.Success() && Step(t, c, q).1.Success()
    ensures !Agree(Step(s, c, p).0, Step(t, c, q).0)
  {
    var id, name := c.request.groupId, c.request.username;
    assert SameGroup(s.groups[id], t.groups[id]);
    var candidates := Requesters(s.groups[id], name);
    assert Requesters(t.groups[id], name) == candidates;
    var u := Chosen(candidates, p.requester);
    var v :| v in candidates && v != u;
    q := ANY.(requester := v);
    assert v in Step(t, c, q).0.groups[id].users && v !in Step(s, c, p).0.groups[id].users;
  }

  /** So is the other guard: a size that was left open can come out differently. */
  lemma UnsetSizeDiverges(s: State, t: State, c: Call, p: Pick) returns (q: Pick)
    requires Agree(s, t) && StoresUnset(s, c)
    ensures Step(s, c, p).1.Success() && Step(t, c, q).1.Success()
    ensures !Agree(Step(s, c, p).0, Step(t, c, q).0)
  {
    var id, h := c.request.groupId, c.request.args.info.hash;
    FileGuardAgrees(s, t, c.origin, id);
    q := ANY.(unset := if p.unset == 0 then 1 else 0);
    var f, f' := Step(s, c, p).0.groups[id].files, Step(t, c, q).0.groups[id].files;
    assert f[h].info.size == p.unset && f'[h].info.size == q.unset;
  }

  // ---- Which successes change something ----

  lemma UserSuccessChanges(s: State, c: Call, pick: Pick)
    requires Step(s, c, pick).1.Success()
    requires c.request.CreateUser? || c.request.DeleteUser? || c.request.Login? || c.request.Logout?
    ensures !Agree(s, Step(s, c, pick).0)
  {
  }

  lemma GroupSuccessChanges(s: State, c: Call, pick: Pick)
    requires Step(s, c, pick).1.Success() && !Idle(s, c)
    requires c.request.CreateGroup? || c.request.JoinGroup? || c.request.LeaveGroup?
    ensures !Agree(s, Step(s, c, pick).0)
  {
    var id, s' := c.request.groupId, Step(s, c, pick).0;
    if id in s.groups {
      assert s.groups[id].users != s'.groups[id].users || s.groups[id].requests != s'.groups[id].requests;
    }
  }

  lemma AcceptSuccessChanges(s: State, c: Call, pick: Pick)
    requires Step(s, c, pick).1.Success() && c.request.AcceptRequest?
    ensures !Agree(s, Step(s, c, pick).0)
  {
    var id := c.request.groupId;
    var u := Chosen(Requesters(s.groups[id], c.request.username), pick.requester);
    assert u in Requesters(s.groups[id], c.request.username);
    assert u in s.groups[id].requests && u !in Step(s, c, pick).0.groups[id].requests;
  }

  lemma UploadSuccessChanges(s: State, c: Call, pick: Pick)
    requires Step(s, c, pick).1.Success() && c.request.Upload?
    ensures !Agree(s, Step(s, c, pick).0)
  {
    var id, h := c.request.groupId, c.request.args.info.hash;
    assert h !in s.groups[id].files && h in Step(s, c, pick).0.groups[id].files;
  }

  /** A success leaves the tracker in agreement with what it was exactly if it is a download or a repeated join,
      and then it changes nothing at all. */
  lemma SuccessChangesIff(s: State, c: Call, pick: Pick)
    requires Step(s, c, pick).1.Success()
    ensures Agree(s, Step(s, c, pick).0) <==> Idle(s, c)
    ensures Idle(s, c) ==> Step(s, c, pick).0 == s
  {
    hide Agree;
    AgreeReflexive(s);
    match c.request
    case CreateGroup(_) => GroupSuccessChanges(s, c, pick);
    case JoinGroup(id) =>
      if Idle(s, c) {
        var g := s.groups[id];
        assert g.(requests := g.requests + {s.sessions[c.origin]}) == g;
        assert s.groups[id := g] == s.groups;
      } else {
        GroupSuccessChanges(s, c, pick);
      }
    case LeaveGroup(_) => GroupSuccessChanges(s, c, pick);
    case AcceptRequest(_, _) => AcceptSuccessChanges(s, c, pick);
    case Upload(_, _) => UploadSuccessChanges(s, c, pick);
    case Download(_, _) =>
    case _ => UserSuccessChanges(s, c, pick);
  }
}
